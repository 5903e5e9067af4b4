/** The per-host model lists: compiled by `reconcileFilterConfigSecret`
    (internal/controller/gateway.go), served by `selectModelsForHost`
    (internal/extproc/models_processor.go). */
module HostModels {
  import opened Text

  const MODEL_HEADER := "x-ai-eg-model"
  const EXACT := "Exact"
  const DEFAULT_OWNER := "Envoy AI Gateway"

  datatype Header = Header(kind: Option<string>, name: string, value: string) {
    predicate DeclaresModel() { (kind.None? || kind.value == EXACT) && name == MODEL_HEADER }
  }
  datatype Rule = Rule(headers: seq<Header>, createdAt: Option<int>, ownedBy: Option<string>)
  datatype Route = Route(hostnames: seq<string>, deleting: bool, createdAt: int, rules: seq<Rule>)
  datatype Model = Model(name: string, createdAt: int, ownedBy: string)
  datatype Config = Config(models: seq<Model>, byHost: map<string, seq<Model>>, unscoped: seq<Model>)

  /* ---- Specification ---- */

  function ModelOf(r: Route, rule: Rule, h: Header): Model {
    Model(h.value, Deref(rule.createdAt, r.createdAt), Deref(rule.ownedBy, DEFAULT_OWNER))
  }

  function RuleModels(r: Route, rule: Rule, headers: seq<Header>): seq<Model> {
    if headers == [] then [] else
      var h := headers[|headers| - 1];
      RuleModels(r, rule, headers[..|headers| - 1]) + (if h.DeclaresModel() then [ModelOf(r, rule, h)] else [])
  }

  function RulesModels(r: Route, rules: seq<Rule>): seq<Model> {
    if rules == [] then [] else
      RulesModels(r, rules[..|rules| - 1]) + RuleModels(r, rules[|rules| - 1], rules[|rules| - 1].headers)
  }

  /** The models a route declares; a route being deleted declares none. */
  function Declared(r: Route): seq<Model> { if r.deleting then [] else RulesModels(r, r.rules) }

  function AllModels(rs: seq<Route>): seq<Model> {
    if rs == [] then [] else AllModels(rs[..|rs| - 1]) + Declared(rs[|rs| - 1])
  }

  function Unscoped(rs: seq<Route>): seq<Model> {
    if rs == [] then [] else
      var r := rs[|rs| - 1];
      Unscoped(rs[..|rs| - 1]) + (if r.hostnames == [] then Declared(r) else [])
  }

  function ScopedModels(rs: seq<Route>): seq<Model> {
    if rs == [] then [] else
      var r := rs[|rs| - 1];
      ScopedModels(rs[..|rs| - 1]) + (if r.hostnames == [] then [] else Declared(r))
  }

  function Times(m: Model, hostnames: seq<string>, host: string): seq<Model> {
    if hostnames == [] then [] else
      Times(m, hostnames[..|hostnames| - 1], host) + (if hostnames[|hostnames| - 1] == host then [m] else [])
  }

  /** A route's share of a host's list: each model once per mention of the host. */
  function Share(ms: seq<Model>, hostnames: seq<string>, host: string): seq<Model> {
    if ms == [] then [] else Share(ms[..|ms| - 1], hostnames, host) + Times(ms[|ms| - 1], hostnames, host)
  }

  /** The models of the routes that name the host, in route order. */
  function Scoped(rs: seq<Route>, host: string): seq<Model> {
    if rs == [] then [] else
      Scoped(rs[..|rs| - 1], host) + Share(Declared(rs[|rs| - 1]), rs[|rs| - 1].hostnames, host)
  }

  predicate Distinct(hostnames: seq<string>) {
    forall i, j :: 0 <= i < j < |hostnames| ==> hostnames[i] != hostnames[j]
  }

  lemma {:induction false} TimesCases(m: Model, hostnames: seq<string>, host: string)
    ensures host !in hostnames ==> Times(m, hostnames, host) == []
    ensures host in hostnames ==> Times(m, hostnames, host) != [] && Times(m, hostnames, host)[0] == m
    ensures host in hostnames && Distinct(hostnames) ==> Times(m, hostnames, host) == [m]
    ensures forall x :: x in Times(m, hostnames, host) ==> x == m
  {
    if hostnames != [] {
      var front := hostnames[..|hostnames| - 1];
      TimesCases(m, front, host);
      assert hostnames == front + [hostnames[|hostnames| - 1]];
    }
  }

  /** A route that does not name the host contributes nothing to its list. */
  lemma {:induction false} ShareAbsent(ms: seq<Model>, hostnames: seq<string>, host: string)
    requires host !in hostnames
    ensures Share(ms, hostnames, host) == []
    decreases |ms|
  {
    if ms != [] {
      ShareAbsent(ms[..|ms| - 1], hostnames, host);
      TimesCases(ms[|ms| - 1], hostnames, host);
    }
  }

  /** A route that names the host (once) contributes exactly its models, in order. */
  lemma {:induction false} ShareOnce(ms: seq<Model>, hostnames: seq<string>, host: string)
    requires host in hostnames && Distinct(hostnames)
    ensures Share(ms, hostnames, host) == ms
    decreases |ms|
  {
    if ms != [] {
      var front, last := ms[..|ms| - 1], ms[|ms| - 1];
      ShareOnce(front, hostnames, host);
      TimesCases(last, hostnames, host);
      assert Share(ms, hostnames, host) == front + [last] == ms;
    }
  }

  lemma {:induction false} ShareMembers(ms: seq<Model>, hostnames: seq<string>, host: string, m: Model)
    ensures m in Share(ms, hostnames, host) <==> m in ms && host in hostnames
    decreases |ms|
  {
    if ms != [] {
      var front, last := ms[..|ms| - 1], ms[|ms| - 1];
      ShareMembers(front, hostnames, host, m);
      TimesCases(last, hostnames, host);
      var times := Times(last, hostnames, host);
      assert m in times <==> m == last && host in hostnames by {
        if host in hostnames {
          assert times[0] in times;
        }
      }
      assert m in Share(ms, hostnames, host) <==> m in Share(front, hostnames, host) || m in times;
      assert m in ms <==> m in front || m == last by { assert ms == front + [last]; }
    }
  }

  /* ---- The compiler ---- */

  method DeclaredModels(r: Route) returns (ms: seq<Model>)
    requires !r.deleting
    ensures ms == Declared(r)
  {
    ms := [];
    for i := 0 to |r.rules|
      invariant ms == RulesModels(r, r.rules[..i])
    {
      var rule := r.rules[i];
      ghost var before := ms;
      for j := 0 to |rule.headers|
        invariant ms == before + RuleModels(r, rule, rule.headers[..j])
      {
        var h := rule.headers[j];
        assert rule.headers[..j + 1][..j] == rule.headers[..j];
        if (h.kind.Some? && h.kind.value != EXACT) || h.name != MODEL_HEADER {
          continue;
        }
        var createdAt := if rule.createdAt.Some? then rule.createdAt.value else r.createdAt;
        var ownedBy := if rule.ownedBy.Some? then rule.ownedBy.value else DEFAULT_OWNER;
        ms := ms + [Model(h.value, createdAt, ownedBy)];
      }
      assert rule.headers[..|rule.headers|] == rule.headers;
      assert r.rules[..i + 1][..i] == r.rules[..i];
    }
    assert r.rules[..|r.rules|] == r.rules;
  }

  function At(m: map<string, seq<Model>>, host: string): seq<Model> { if host in m then m[host] else [] }

  /** Hosts are keys exactly when their list is not empty. */
  ghost predicate NoEmpty(m: map<string, seq<Model>>) { forall h :: h in m ==> m[h] != [] }

  function AppendAt(byHost: map<string, seq<Model>>, hn: string, m: Model): map<string, seq<Model>> {
    byHost[hn := At(byHost, hn) + [m]]
  }

  function AppendAll(byHost: map<string, seq<Model>>, m: Model, hostnames: seq<string>): map<string, seq<Model>> {
    if hostnames == [] then byHost
    else AppendAt(AppendAll(byHost, m, hostnames[..|hostnames| - 1]), hostnames[|hostnames| - 1], m)
  }

  lemma {:induction false} AppendAllAt(byHost: map<string, seq<Model>>, m: Model, hostnames: seq<string>, h: string)
    ensures At(AppendAll(byHost, m, hostnames), h) == At(byHost, h) + Times(m, hostnames, h)
  {
    if hostnames != [] {
      AppendAllAt(byHost, m, hostnames[..|hostnames| - 1], h);
    }
  }

  method AddModel(byHost: map<string, seq<Model>>, m: Model, hostnames: seq<string>)
    returns (r: map<string, seq<Model>>)
    requires NoEmpty(byHost)
    ensures NoEmpty(r) && forall h :: At(r, h) == At(byHost, h) + Times(m, hostnames, h)
  {
    r := byHost;
    for j := 0 to |hostnames|
      invariant NoEmpty(r) && r == AppendAll(byHost, m, hostnames[..j])
    {
      var hn := hostnames[j];
      assert hostnames[..j + 1][..j] == hostnames[..j];
      r := r[hn := (if hn in r then r[hn] else []) + [m]];
    }
    assert hostnames[..|hostnames|] == hostnames;
    forall h ensures At(r, h) == At(byHost, h) + Times(m, hostnames, h) { AppendAllAt(byHost, m, hostnames, h); }
  }

  method AddScoped(byHost: map<string, seq<Model>>, ms: seq<Model>, hostnames: seq<string>)
    returns (r: map<string, seq<Model>>)
    requires NoEmpty(byHost)
    ensures NoEmpty(r) && forall h :: At(r, h) == At(byHost, h) + Share(ms, hostnames, h)
  {
    r := byHost;
    for i := 0 to |ms|
      invariant NoEmpty(r) && forall h :: At(r, h) == At(byHost, h) + Share(ms[..i], hostnames, h)
    {
      r := AddModel(r, ms[i], hostnames);
      assert ms[..i + 1][..i] == ms[..i];
    }
    assert ms[..|ms|] == ms;
  }

  method PromoteUnscoped(byHost: map<string, seq<Model>>, unscoped: seq<Model>) returns (r: map<string, seq<Model>>)
    ensures r.Keys == byHost.Keys && forall h :: h in r ==> r[h] == byHost[h] + unscoped
  {
    r := byHost;
    var left := byHost.Keys;
    while left != {}
      invariant r.Keys == byHost.Keys && left <= byHost.Keys
      invariant forall h :: h in r ==> r[h] == if h in left then byHost[h] else byHost[h] + unscoped
      decreases left
    {
      var hn :| hn in left;
      r, left := r[hn := r[hn] + unscoped], left - {hn};
    }
  }

  /** What the compiled config is, for every list of routes. */
  ghost predicate IsCompiled(rs: seq<Route>, c: Config) {
    && c.models == AllModels(rs)
    && (forall h :: h in c.byHost <==> Scoped(rs, h) != [])
    && (forall h :: h in c.byHost ==> c.byHost[h] == Scoped(rs, h) + Unscoped(rs))
    && c.unscoped == if c.byHost != map[] then Unscoped(rs) else []
  }

  lemma ScopedNext(rs: seq<Route>, i: nat, h: string)
    requires i < |rs|
    ensures Scoped(rs[..i + 1], h) == Scoped(rs[..i], h) + Share(Declared(rs[i]), rs[i].hostnames, h)
    ensures rs[i].hostnames == [] ==> Scoped(rs[..i + 1], h) == Scoped(rs[..i], h)
  {
    assert rs[..i + 1][..i] == rs[..i] && rs[..i + 1][i] == rs[i];
    if rs[i].hostnames == [] {
      ShareAbsent(Declared(rs[i]), [], h);
    }
  }

  /** The route loop: all models, those per host, and those for every host. */
  method CollectModels(rs: seq<Route>)
    returns (models: seq<Model>, byHost: map<string, seq<Model>>, unscoped: seq<Model>)
    ensures models == AllModels(rs) && unscoped == Unscoped(rs)
    ensures NoEmpty(byHost) && forall h :: At(byHost, h) == Scoped(rs, h)
  {
    models, byHost, unscoped := [], map[], [];
    for i := 0 to |rs|
      invariant models == AllModels(rs[..i]) && unscoped == Unscoped(rs[..i])
      invariant NoEmpty(byHost) && forall h :: At(byHost, h) == Scoped(rs[..i], h)
    {
      assert rs[..i + 1][..i] == rs[..i] && rs[..i + 1][i] == rs[i];
      forall h { ScopedNext(rs, i, h); }
      if rs[i].deleting {
        assert models == models + [] && unscoped == unscoped + [];
        continue;
      }
      var ms := DeclaredModels(rs[i]);
      models := models + ms;
      if |rs[i].hostnames| > 0 {
        byHost := AddScoped(byHost, ms, rs[i].hostnames);
      } else {
        unscoped := unscoped + ms;
      }
    }
    assert rs[..|rs|] == rs;
  }

  method CompileModels(rs: seq<Route>) returns (c: Config)
    ensures IsCompiled(rs, c)
  {
    var models, byHost, unscoped := CollectModels(rs);
    c := Config(models, byHost, []);
    if byHost != map[] && |unscoped| > 0 {
      var promoted := PromoteUnscoped(byHost, unscoped);
      c := Config(models, promoted, unscoped);
      var h :| h in byHost;
      assert h in promoted;
    }
    forall h ensures h in byHost <==> Scoped(rs, h) != [] { assert At(byHost, h) == Scoped(rs, h); }
    forall h | h in byHost ensures byHost[h] == Scoped(rs, h) { assert At(byHost, h) == Scoped(rs, h); }
  }

  /** Every declaration is kept once: the global list is the scoped and the unscoped declarations
      together, as multisets. */
  lemma {:induction false} ModelsConserved(rs: seq<Route>)
    ensures multiset(AllModels(rs)) == multiset(ScopedModels(rs)) + multiset(Unscoped(rs))
  {
    if rs != [] {
      ModelsConserved(rs[..|rs| - 1]);
    }
  }

  /** The route declares the model: it is not being deleted, and a header match of one of its rules is
      an exact match on the model header, with the model's name as its value; time and owner are
      the rule's own, or else the route's creation and the default owner. */
  predicate Declares(r: Route, m: Model) {
    !r.deleting && exists i, j :: 0 <= i < |r.rules| && 0 <= j < |r.rules[i].headers| && DeclaredBy(r, i, j, m)
  }

  predicate DeclaredBy(r: Route, i: nat, j: nat, m: Model)
    requires i < |r.rules| && j < |r.rules[i].headers|
  {
    var rule, h := r.rules[i], r.rules[i].headers[j];
    && h.name == "x-ai-eg-model" && (h.kind.None? || h.kind.value == "Exact") && m.name == h.value
    && m.createdAt == (if rule.createdAt.Some? then rule.createdAt.value else r.createdAt)
    && m.ownedBy == (if rule.ownedBy.Some? then rule.ownedBy.value else "Envoy AI Gateway")
  }

  lemma {:induction false} RuleModelsIff(r: Route, i: nat, n: nat, m: Model)
    requires i < |r.rules| && n <= |r.rules[i].headers|
    ensures m in RuleModels(r, r.rules[i], r.rules[i].headers[..n]) <==>
              exists j :: 0 <= j < n && DeclaredBy(r, i, j, m)
    decreases n
  {
    if n > 0 {
      RuleModelsIff(r, i, n - 1, m);
      var headers := r.rules[i].headers[..n];
      assert headers[..n - 1] == r.rules[i].headers[..n - 1] && headers[n - 1] == r.rules[i].headers[n - 1];
      assert DeclaredBy(r, i, n - 1, m) <==>
               headers[n - 1].DeclaresModel() && m == ModelOf(r, r.rules[i], headers[n - 1]);
    }
  }

  lemma {:induction false} RulesModelsIff(r: Route, n: nat, m: Model)
    requires n <= |r.rules|
    ensures m in RulesModels(r, r.rules[..n]) <==>
              exists i, j :: 0 <= i < n && 0 <= j < |r.rules[i].headers| && DeclaredBy(r, i, j, m)
    decreases n
  {
    if n > 0 {
      RulesModelsIff(r, n - 1, m);
      RuleModelsIff(r, n - 1, |r.rules[n - 1].headers|, m);
      assert r.rules[..n][..n - 1] == r.rules[..n - 1] && r.rules[..n][n - 1] == r.rules[n - 1];
      assert r.rules[n - 1].headers[..|r.rules[n - 1].headers|] == r.rules[n - 1].headers;
    }
  }

  /** The declared list holds exactly the models the route declares. */
  lemma DeclaredIff(r: Route, m: Model)
    ensures m in Declared(r) <==> Declares(r, m)
  {
    RulesModelsIff(r, |r.rules|, m);
    assert r.rules[..|r.rules|] == r.rules;
  }

  /** In order: the models of more rules follow those of the rules before, and within a rule the models
      of more headers those of the headers before. */
  lemma {:induction false} RulesModelsConcat(r: Route, a: seq<Rule>, b: seq<Rule>)
    ensures RulesModels(r, a + b) == RulesModels(r, a) + RulesModels(r, b)
    decreases |b|
  {
    if b == [] {
      assert a + b == a;
    } else {
      assert (a + b)[..|a + b| - 1] == a + b[..|b| - 1];
      RulesModelsConcat(r, a, b[..|b| - 1]);
    }
  }

  lemma {:induction false} RuleModelsConcat(r: Route, rule: Rule, a: seq<Header>, b: seq<Header>)
    ensures RuleModels(r, rule, a + b) == RuleModels(r, rule, a) + RuleModels(r, rule, b)
    decreases |b|
  {
    if b == [] {
      assert a + b == a;
    } else {
      assert (a + b)[..|a + b| - 1] == a + b[..|b| - 1];
      RuleModelsConcat(r, rule, a, b[..|b| - 1]);
    }
  }

  lemma AllModelsLast(rs: seq<Route>, front: seq<Route>, last: Route)
    requires rs == front + [last]
    ensures AllModels(rs) == AllModels(front) + Declared(last)
  {
    assert rs[..|rs| - 1] == front;
  }

  /** The lists of the configuration follow the order of the routes. */
  lemma {:induction false} AllModelsConcat(a: seq<Route>, b: seq<Route>)
    ensures AllModels(a + b) == AllModels(a) + AllModels(b)
    decreases |b|
  {
    if b == [] {
      assert a + b == a;
    } else {
      AllModelsConcat(a, b[..|b| - 1]);
      AllModelsMore(a, b[..|b| - 1], b, b[|b| - 1]);
    }
  }

  lemma {:induction false} AllModelsMore(a: seq<Route>, front: seq<Route>, b: seq<Route>, last: Route)
    requires b == front + [last] && AllModels(a + front) == AllModels(a) + AllModels(front)
    ensures AllModels(a + b) == AllModels(a) + AllModels(b)
  {
    assert a + b == (a + front) + [last];
    AllModelsLast(a + b, a + front, last);
    AllModelsLast(b, front, last);
    ConcatAssociates(AllModels(a), AllModels(front), Declared(last));
  }

  lemma {:induction false} UnscopedConcat(a: seq<Route>, b: seq<Route>)
    ensures Unscoped(a + b) == Unscoped(a) + Unscoped(b)
    decreases |b|
  {
    if b == [] {
      assert a + b == a;
    } else {
      assert (a + b)[..|a + b| - 1] == a + b[..|b| - 1];
      UnscopedConcat(a, b[..|b| - 1]);
    }
  }

  lemma {:induction false} ScopedConcat(a: seq<Route>, b: seq<Route>, host: string)
    ensures Scoped(a + b, host) == Scoped(a, host) + Scoped(b, host)
    decreases |b|
  {
    if b == [] {
      assert a + b == a;
    } else {
      assert (a + b)[..|a + b| - 1] == a + b[..|b| - 1];
      ScopedConcat(a, b[..|b| - 1], host);
    }
  }

  predicate DeclaresFor(r: Route, host: string, m: Model) { m in Declared(r) && host in r.hostnames }

  predicate DeclaresForAll(r: Route, m: Model) { m in Declared(r) && r.hostnames == [] }

  predicate SomeFor(rs: seq<Route>, host: string, m: Model) { exists i :: 0 <= i < |rs| && DeclaresFor(rs[i], host, m) }

  predicate SomeForAll(rs: seq<Route>, m: Model) { exists i :: 0 <= i < |rs| && DeclaresForAll(rs[i], m) }

  lemma SomeStep(rs: seq<Route>, host: string, m: Model)
    requires rs != []
    ensures SomeFor(rs, host, m) <==> SomeFor(rs[..|rs| - 1], host, m) || DeclaresFor(rs[|rs| - 1], host, m)
    ensures SomeForAll(rs, m) <==> SomeForAll(rs[..|rs| - 1], m) || DeclaresForAll(rs[|rs| - 1], m)
  {
    assert rs == rs[..|rs| - 1] + [rs[|rs| - 1]];
  }

  lemma ScopedStep(rs: seq<Route>, host: string, m: Model)
    requires rs != []
    ensures m in Scoped(rs, host) <==> m in Scoped(rs[..|rs| - 1], host) || DeclaresFor(rs[|rs| - 1], host, m)
  {
    var share := Share(Declared(rs[|rs| - 1]), rs[|rs| - 1].hostnames, host);
    ShareMembers(Declared(rs[|rs| - 1]), rs[|rs| - 1].hostnames, host, m);
    assert m in Scoped(rs, host) <==> m in Scoped(rs[..|rs| - 1], host) || m in share;
  }

  lemma {:induction false} ScopedMembers(rs: seq<Route>, host: string, m: Model)
    ensures m in Scoped(rs, host) <==> SomeFor(rs, host, m)
  {
    if rs != [] {
      ScopedMembers(rs[..|rs| - 1], host, m);
      ScopedStep(rs, host, m);
      SomeStep(rs, host, m);
    }
  }

  lemma {:induction false} UnscopedMembers(rs: seq<Route>, m: Model)
    ensures m in Unscoped(rs) <==> SomeForAll(rs, m)
  {
    if rs != [] {
      UnscopedMembers(rs[..|rs| - 1], m);
      SomeStep(rs, "", m);
      assert m in Unscoped(rs) <==> m in Unscoped(rs[..|rs| - 1]) || DeclaresForAll(rs[|rs| - 1], m);
    }
  }

  /* ---- The server ---- */

  predicate HasSuffix(s: string, suffix: string) { |suffix| <= |s| && s[|s| - |suffix|..] == suffix }

  /** The wildcard test of the source: a "*." pattern whose suffix the host ends with after exactly
      one label. */
  predicate WildcardMatches(pattern: string, host: string) {
    && "*." <= pattern
    && HasSuffix(host, "." + pattern[2..])
    && '.' !in host[..|host| - |pattern[2..]| - 1]
  }

  /** The only pattern that can match: the host with its first label replaced. */
  function WildcardFor(host: string): Option<string> {
    if '.' in host then Some("*" + host[IndexOf(host, '.')..]) else None
  }

  /** At most one wildcard pattern matches a host, so the "longest suffix" search has one outcome
      whatever order Go ranges over the map in. */
  lemma WildcardUnique(pattern: string, host: string)
    ensures WildcardMatches(pattern, host) <==> WildcardFor(host) == Some(pattern)
  {
    if WildcardMatches(pattern, host) {
      var k := |host| - |pattern[2..]| - 1;
      assert host[k..] == "." + pattern[2..];
      assert host[k] == '.';
      IndexOfIs(host, '.', k);
      assert pattern == pattern[..2] + pattern[2..] == "*." + pattern[2..];
      assert "*" + host[k..] == "*." + pattern[2..];
    }
    if WildcardFor(host) == Some(pattern) {
      var k := IndexOf(host, '.');
      assert pattern[2..] == host[k + 1..];
      assert host[k..] == "." + host[k + 1..];
      assert |host| - |pattern[2..]| - 1 == k;
      assert pattern[..2] == "*.";
    }
  }

  /** What a host is served. */
  function Served(host: string, c: Config): seq<Model> {
    if host == "" || c.byHost == map[] then c.models
    else if host in c.byHost then c.byHost[host]
    else if WildcardFor(host).Some? && WildcardFor(host).value in c.byHost then c.byHost[WildcardFor(host).value]
    else c.unscoped
  }

  method SelectModelsForHost(host: string, c: Config) returns (r: seq<Model>)
    requires NoEmpty(c.byHost)
    ensures r == Served(host, c)
  {
    if host == "" || |c.byHost| == 0 {
      return c.models;
    }
    if host in c.byHost {
      return c.byHost[host];
    }
    var bestLength, best: seq<Model> := -1, [];
    var left := c.byHost.Keys;
    while left != {}
      invariant left <= c.byHost.Keys
      invariant best == [] <==> bestLength == -1
      invariant best == [] ==> forall p :: p in c.byHost && p !in left ==> !WildcardMatches(p, host)
      invariant best != [] ==> WildcardFor(host).Some? && WildcardFor(host).value in c.byHost
                               && best == c.byHost[WildcardFor(host).value]
      decreases left
    {
      var pattern :| pattern in left;
      left := left - {pattern};
      WildcardUnique(pattern, host);
      if WildcardMatches(pattern, host) && |pattern[2..]| > bestLength {
        bestLength, best := |pattern[2..]|, c.byHost[pattern];
      }
    }
    if best != [] {
      return best;
    }
    if WildcardFor(host).Some? {
      WildcardUnique(WildcardFor(host).value, host);
    }
    return c.unscoped;
  }

  /** Some header match of the route is an exact match on the model header. */
  predicate DeclaresSome(r: Route) {
    !r.deleting && exists i, j :: 0 <= i < |r.rules| && 0 <= j < |r.rules[i].headers|
                                  && r.rules[i].headers[j].name == "x-ai-eg-model"
                                  && (r.rules[i].headers[j].kind.None? || r.rules[i].headers[j].kind.value == "Exact")
  }

  lemma DeclaresSomeIff(r: Route)
    ensures DeclaresSome(r) <==> Declared(r) != []
  {
    if Declared(r) != [] {
      DeclaredIff(r, Declared(r)[0]);
    }
    if DeclaresSome(r) {
      var i, j :| 0 <= i < |r.rules| && 0 <= j < |r.rules[i].headers| && r.rules[i].headers[j].name == "x-ai-eg-model"
                  && (r.rules[i].headers[j].kind.None? || r.rules[i].headers[j].kind.value == "Exact");
      var m := ModelOf(r, r.rules[i], r.rules[i].headers[j]);
      assert DeclaredBy(r, i, j, m);
      DeclaredIff(r, m);
    }
  }

  predicate SomeScoped(rs: seq<Route>) { exists i :: 0 <= i < |rs| && rs[i].hostnames != [] && Declared(rs[i]) != [] }

  lemma ByHostNonEmpty(rs: seq<Route>, c: Config)
    requires IsCompiled(rs, c)
    ensures c.byHost != map[] <==> SomeScoped(rs)
    ensures NoEmpty(c.byHost)
    ensures c.unscoped != [] <==> SomeScoped(rs) && Unscoped(rs) != []
  {
    if c.byHost != map[] {
      var h :| h in c.byHost;
      ScopedMembers(rs, h, Scoped(rs, h)[0]);
    }
    if SomeScoped(rs) {
      var i :| 0 <= i < |rs| && rs[i].hostnames != [] && Declared(rs[i]) != [];
      var h, m := rs[i].hostnames[0], Declared(rs[i])[0];
      assert DeclaresFor(rs[i], h, m);
      ScopedMembers(rs, h, m);
      assert h in c.byHost;
    }
  }

  /** Some live route declares a model under this hostname. */
  predicate Claimed(rs: seq<Route>, host: string) {
    exists i :: 0 <= i < |rs| && host in rs[i].hostnames && Declared(rs[i]) != []
  }

  lemma ClaimedIff(rs: seq<Route>, host: string)
    ensures Scoped(rs, host) != [] <==> Claimed(rs, host)
  {
    if Scoped(rs, host) != [] {
      ScopedMembers(rs, host, Scoped(rs, host)[0]);
      var i :| 0 <= i < |rs| && DeclaresFor(rs[i], host, Scoped(rs, host)[0]);
    }
    if Claimed(rs, host) {
      var i :| 0 <= i < |rs| && host in rs[i].hostnames && Declared(rs[i]) != [];
      assert DeclaresFor(rs[i], host, Declared(rs[i])[0]);
      ScopedMembers(rs, host, Declared(rs[i])[0]);
    }
  }

  predicate SomeDeclares(rs: seq<Route>, m: Model) { exists i :: 0 <= i < |rs| && m in Declared(rs[i]) }

  lemma {:induction false} AllMembers(rs: seq<Route>, m: Model)
    ensures m in AllModels(rs) <==> SomeDeclares(rs, m)
  {
    if rs != [] {
      AllMembers(rs[..|rs| - 1], m);
      SomeDeclaresStep(rs, m);
    }
  }

  lemma SomeDeclaresStep(rs: seq<Route>, m: Model)
    requires rs != []
    ensures SomeDeclares(rs, m) <==> SomeDeclares(rs[..|rs| - 1], m) || m in Declared(rs[|rs| - 1])
  {
    assert rs == rs[..|rs| - 1] + [rs[|rs| - 1]];
  }

  lemma ServedIff(rs: seq<Route>, c: Config, host: string, m: Model)
    requires IsCompiled(rs, c)
    ensures m in Served(host, c) <==>
              if host == "" || !SomeScoped(rs) then SomeDeclares(rs, m) else
                || SomeForAll(rs, m)
                || SomeFor(rs, host, m)
                || (!Claimed(rs, host) && WildcardFor(host).Some? && SomeFor(rs, WildcardFor(host).value, m))
  {
    ByHostNonEmpty(rs, c);
    AllMembers(rs, m);
    UnscopedMembers(rs, m);
    ScopedMembers(rs, host, m);
    ClaimedIff(rs, host);
    if WildcardFor(host).Some? {
      ScopedMembers(rs, WildcardFor(host).value, m);
    }
  }

  /** Some route with this hostname, or with some hostname if none is given, declares a model at all. */
  predicate Claims(rs: seq<Route>, host: Option<string>) {
    exists i :: 0 <= i < |rs| && DeclaresSome(rs[i])
                && (if host.Some? then host.value in rs[i].hostnames else rs[i].hostnames != [])
  }

  /** Some route declares the model: any at all, one without hostnames, or one with this hostname. */
  datatype Scope = Any | NoHost | Named(host: string)

  predicate InScope(r: Route, scope: Scope) {
    match scope
    case Any => true
    case NoHost => r.hostnames == []
    case Named(host) => host in r.hostnames
  }

  predicate Offers(rs: seq<Route>, scope: Scope, m: Model) {
    exists i :: 0 <= i < |rs| && InScope(rs[i], scope) && Declares(rs[i], m)
  }

  /** Exactly which models a host sees. Without a host, or while no route with hostnames declares a
      model: all that any route declares. Otherwise those of routes without hostnames, those of
      routes naming the host, and, only when no route claims the host itself, those of routes naming
      its wildcard, "*" and what follows its first label; a model of a route scoped to other hosts
      never appears. */
  lemma HostIsolation(rs: seq<Route>, c: Config, host: string, m: Model)
    requires IsCompiled(rs, c)
    ensures m in Served(host, c) <==>
              if host == "" || !Claims(rs, None) then Offers(rs, Any, m) else
                || Offers(rs, NoHost, m)
                || Offers(rs, Named(host), m)
                || (!Claims(rs, Some(host))
                    && exists first, rest :: OneLabel(host, first, rest) && Offers(rs, Named("*." + rest), m))
  {
    ServedIff(rs, c, host, m);
    OffersIff(rs, m, host);
    ClaimsIff(rs, host);
    WildcardOffers(rs, host, m);
  }

  predicate OneLabel(host: string, first: string, rest: string) { host == first + "." + rest && '.' !in first }

  lemma OneLabelIs(host: string, first: string, rest: string)
    requires OneLabel(host, first, rest)
    ensures WildcardFor(host) == Some("*." + rest)
  {
    assert host[|first|] == '.' && host[..|first|] == first;
    IndexOfIs(host, '.', |first|);
    assert host[|first|..] == "." + rest;
    assert "*" + ("." + rest) == "*." + rest;
  }

  lemma WildcardSplits(host: string) returns (first: string, rest: string)
    requires '.' in host
    ensures OneLabel(host, first, rest)
  {
    var k := IndexOf(host, '.');
    first, rest := host[..k], host[k + 1..];
    assert host == host[..k] + [host[k]] + host[k + 1..];
  }

  lemma WildcardOffers(rs: seq<Route>, host: string, m: Model)
    ensures (exists first, rest :: OneLabel(host, first, rest) && Offers(rs, Named("*." + rest), m))
       <==> WildcardFor(host).Some? && SomeFor(rs, WildcardFor(host).value, m)
  {
    if first, rest :| OneLabel(host, first, rest) && Offers(rs, Named("*." + rest), m) {
      OneLabelIs(host, first, rest);
      OffersIff(rs, m, "*." + rest);
    }
    if WildcardFor(host).Some? && SomeFor(rs, WildcardFor(host).value, m) {
      var first, rest := WildcardSplits(host);
      OneLabelIs(host, first, rest);
      OffersIff(rs, m, "*." + rest);
    }
  }

  lemma OffersIff(rs: seq<Route>, m: Model, host: string)
    ensures Offers(rs, Any, m) <==> SomeDeclares(rs, m)
    ensures Offers(rs, NoHost, m) <==> SomeForAll(rs, m)
    ensures Offers(rs, Named(host), m) <==> SomeFor(rs, host, m)
  {
    forall i | 0 <= i < |rs| ensures m in Declared(rs[i]) <==> Declares(rs[i], m) { DeclaredIff(rs[i], m); }
    assert forall i :: 0 <= i < |rs| ==> (DeclaresForAll(rs[i], m) <==> InScope(rs[i], NoHost) && Declares(rs[i], m));
    assert forall i :: 0 <= i < |rs| ==>
             (DeclaresFor(rs[i], host, m) <==> InScope(rs[i], Named(host)) && Declares(rs[i], m));
    assert forall i :: 0 <= i < |rs| ==> InScope(rs[i], Any);
  }

  lemma ClaimsIff(rs: seq<Route>, host: string)
    ensures Claims(rs, None) <==> SomeScoped(rs)
    ensures Claims(rs, Some(host)) <==> Claimed(rs, host)
  {
    forall i | 0 <= i < |rs| ensures DeclaresSome(rs[i]) <==> Declared(rs[i]) != [] { DeclaresSomeIff(rs[i]); }
  }
}
