/** `injectQuotaPolicyCostExpressions` of internal/controller/gateway.go: the cost entries that
    QuotaPolicies contribute to one route. CEL validity is the parameter `valid`. */
module QuotaCost {
  import opened Text

  const COST_KEY := "quota_cost"
  const DEFAULT_EXPR := "total_tokens"

  datatype Quota = Quota(model: Option<string>, cost: Option<string>) {
    function Expr(): string { Deref(cost, DEFAULT_EXPR) }
  }
  datatype Policy = Policy(name: string, targetRefs: seq<string>, quotas: seq<Quota>)
  datatype Ref = Ref(name: string, modelOverride: string)
  datatype Route = Route(ns: string, name: string, rules: seq<seq<Ref>>)

  /** One LLMRequestCost; type and metadata key are constant. */
  datatype Cost = Cost(cel: string, backend: string, routeName: string, model: string)

  predicate HasBackend(r: Route, name: string) {
    exists i, j :: 0 <= i < |r.rules| && 0 <= j < |r.rules[i]| && r.rules[i][j].name == name
  }

  predicate HasModel(r: Route, model: string) {
    model != "" && exists i, j :: 0 <= i < |r.rules| && 0 <= j < |r.rules[i]| && r.rules[i][j].modelOverride == model
  }

  predicate HasAnyModel(r: Route) {
    exists i, j :: 0 <= i < |r.rules| && 0 <= j < |r.rules[i]| && r.rules[i][j].modelOverride != ""
  }

  predicate Targets(r: Route, p: Policy) {
    exists i :: 0 <= i < |p.targetRefs| && HasBackend(r, p.targetRefs[i])
  }

  /** The quota names a model this route serves (any model, if the route overrides none) and its
      expression compiles. */
  predicate Applies(r: Route, valid: string -> bool, q: Quota) {
    q.model.Some? && (HasAnyModel(r) ==> HasModel(r, q.model.value)) && valid(q.Expr())
  }

  /* ---- The candidates, in list order, and the first of each kind ---- */

  datatype Candidate = Candidate(model: string, backend: string, expr: string)

  function FromQuota(q: Quota, refs: seq<string>): seq<Candidate>
    requires q.model.Some?
  {
    seq(|refs|, i requires 0 <= i < |refs| => Candidate(q.model.value, refs[i], q.Expr()))
  }

  function FromQuotas(r: Route, valid: string -> bool, refs: seq<string>, quotas: seq<Quota>): seq<Candidate> {
    if quotas == [] then [] else
      var q := quotas[|quotas| - 1];
      FromQuotas(r, valid, refs, quotas[..|quotas| - 1]) + IfApplies(r, valid, refs, q)
  }

  function IfApplies(r: Route, valid: string -> bool, refs: seq<string>, q: Quota): seq<Candidate> {
    if Applies(r, valid, q) then FromQuota(q, refs) else []
  }

  function FromPolicies(r: Route, valid: string -> bool, policies: seq<Policy>): seq<Candidate> {
    if policies == [] then [] else
      var p := policies[|policies| - 1];
      FromPolicies(r, valid, policies[..|policies| - 1])
        + (if Targets(r, p) then FromQuotas(r, valid, p.targetRefs, p.quotas) else [])
  }

  function BackendKey(ns: string, name: string): string { ns + "/" + name }

  function DedupeKey(ns: string, c: Candidate): string {
    COST_KEY + "\0" + c.model + "\0" + BackendKey(ns, c.backend)
  }

  ghost function Keys(ns: string, cs: seq<Candidate>): set<string> {
    set c | c in cs :: DedupeKey(ns, c)
  }

  function CostOf(r: Route, c: Candidate): Cost {
    Cost(c.expr, BackendKey(r.ns, c.backend), r.ns + "/" + r.name, c.model)
  }

  /** Keep a candidate unless an earlier one has its key. */
  ghost function Emitted(r: Route, cs: seq<Candidate>): seq<Cost> {
    if cs == [] then [] else
      var front, c := cs[..|cs| - 1], cs[|cs| - 1];
      Emitted(r, front) + (if DedupeKey(r.ns, c) in Keys(r.ns, front) then [] else [CostOf(r, c)])
  }

  lemma EmittedNext(r: Route, cs: seq<Candidate>, c: Candidate)
    ensures Emitted(r, cs + [c])
         == Emitted(r, cs) + (if DedupeKey(r.ns, c) in Keys(r.ns, cs) then [] else [CostOf(r, c)])
    ensures Keys(r.ns, cs + [c]) == Keys(r.ns, cs) + {DedupeKey(r.ns, c)}
  {
    assert (cs + [c])[..|cs|] == cs;
  }

  /* ---- The loops ---- */

  /** What the loops carry: the entries and dedupe keys of the candidates seen so far. */
  ghost predicate Tracks(r: Route, seen: seq<Candidate>, costs: seq<Cost>, injected: set<string>) {
    costs == Emitted(r, seen) && injected == Keys(r.ns, seen)
  }

  method InjectRef(r: Route, q: Quota, ref: string, ghost seen: seq<Candidate>, costs: seq<Cost>, injected: set<string>)
    returns (costs': seq<Cost>, injected': set<string>)
    requires q.model.Some? && Tracks(r, seen, costs, injected)
    ensures Tracks(r, seen + [Candidate(q.model.value, ref, q.Expr())], costs', injected')
    ensures costs <= costs'
  {
    costs', injected' := costs, injected;
    EmittedNext(r, seen, Candidate(q.model.value, ref, q.Expr()));
    var backendKey := r.ns + "/" + ref;
    var dedupeKey := COST_KEY + "\0" + q.model.value + "\0" + backendKey;
    if dedupeKey !in injected {
      costs' := costs + [Cost(q.Expr(), backendKey, r.ns + "/" + r.name, q.model.value)];
      injected' := injected + {dedupeKey};
    }
  }

  method InjectQuota(r: Route, q: Quota, refs: seq<string>, ghost seen: seq<Candidate>, costs: seq<Cost>,
                     injected: set<string>)
    returns (costs': seq<Cost>, injected': set<string>, ghost seen': seq<Candidate>)
    requires q.model.Some? && Tracks(r, seen, costs, injected)
    ensures seen' == seen + FromQuota(q, refs) && Tracks(r, seen', costs', injected')
    ensures costs <= costs'
  {
    costs', injected', seen' := costs, injected, seen;
    for n := 0 to |refs|
      invariant seen' == seen + FromQuota(q, refs)[..n]
      invariant Tracks(r, seen', costs', injected')
    {
      costs', injected' := InjectRef(r, q, refs[n], seen', costs', injected');
      seen' := seen' + [Candidate(q.model.value, refs[n], q.Expr())];
    }
    EmittedPrefix(r, seen, seen');
  }

  method CollectRoute(r: Route) returns (backends: set<string>, models: set<string>)
    ensures forall b :: b in backends <==> HasBackend(r, b)
    ensures AreModels(r, models)
  {
    backends, models := {}, {};
    for i := 0 to |r.rules|
      invariant forall b :: b in backends <==>
                  exists k, j :: 0 <= k < i && 0 <= j < |r.rules[k]| && r.rules[k][j].name == b
      invariant forall m :: m in models <==>
                  m != "" && exists k, j :: 0 <= k < i && 0 <= j < |r.rules[k]| && r.rules[k][j].modelOverride == m
    {
      var names := set j | 0 <= j < |r.rules[i]| :: r.rules[i][j].name;
      var refs := r.rules[i];
      var overrides := set j | 0 <= j < |refs| && refs[j].modelOverride != "" :: refs[j].modelOverride;
      backends, models := backends + names, models + overrides;
    }
    if HasAnyModel(r) {
      var i, j :| 0 <= i < |r.rules| && 0 <= j < |r.rules[i]| && r.rules[i][j].modelOverride != "";
      assert r.rules[i][j].modelOverride in models;
    }
  }

  /** The models the route overrides to, as the loops see them. */
  ghost predicate AreModels(r: Route, models: set<string>) {
    (forall m :: m in models <==> HasModel(r, m)) && (models != {} <==> HasAnyModel(r))
  }

  /** One quota, skipped if it names no model, a model this route does not serve, or a bad expression. */
  method InjectIfApplies(r: Route, valid: string -> bool, models: set<string>, q: Quota, refs: seq<string>,
                         ghost seen: seq<Candidate>, costs: seq<Cost>, injected: set<string>)
    returns (costs': seq<Cost>, injected': set<string>, ghost seen': seq<Candidate>)
    requires AreModels(r, models) && Tracks(r, seen, costs, injected)
    ensures seen' == seen + IfApplies(r, valid, refs, q) && Tracks(r, seen', costs', injected')
    ensures costs <= costs'
  {
    if q.model.None? || (models != {} && q.model.value !in models) || !valid(q.Expr()) {
      return costs, injected, seen;
    }
    costs', injected', seen' := InjectQuota(r, q, refs, seen, costs, injected);
  }

  lemma QuotasStep(r: Route, valid: string -> bool, refs: seq<string>, quotas: seq<Quota>, n: nat, seen: seq<Candidate>)
    requires n < |quotas|
    ensures seen + FromQuotas(r, valid, refs, quotas[..n + 1])
         == seen + FromQuotas(r, valid, refs, quotas[..n]) + IfApplies(r, valid, refs, quotas[n])
  {
    assert quotas[..n + 1][..n] == quotas[..n] && quotas[..n + 1][n] == quotas[n];
  }

  method InjectQuotas(r: Route, valid: string -> bool, models: set<string>, p: Policy,
                      ghost seen: seq<Candidate>, costs: seq<Cost>, injected: set<string>)
    returns (costs': seq<Cost>, injected': set<string>, ghost seen': seq<Candidate>)
    requires AreModels(r, models) && Tracks(r, seen, costs, injected)
    ensures seen' == seen + FromQuotas(r, valid, p.targetRefs, p.quotas) && Tracks(r, seen', costs', injected')
    ensures costs <= costs'
  {
    costs', injected', seen' := costs, injected, seen;
    for n := 0 to |p.quotas|
      invariant seen' == seen + FromQuotas(r, valid, p.targetRefs, p.quotas[..n])
      invariant Tracks(r, seen', costs', injected')
    {
      QuotasStep(r, valid, p.targetRefs, p.quotas, n, seen);
      costs', injected', seen' :=
        InjectIfApplies(r, valid, models, p.quotas[n], p.targetRefs, seen', costs', injected');
    }
    assert p.quotas[..|p.quotas|] == p.quotas;
    EmittedPrefix(r, seen, seen');
  }

  method TargetsRoute(r: Route, backends: set<string>, p: Policy) returns (targets: bool)
    requires forall b :: b in backends <==> HasBackend(r, b)
    ensures targets <==> Targets(r, p)
  {
    for i := 0 to |p.targetRefs|
      invariant forall k :: 0 <= k < i ==> !HasBackend(r, p.targetRefs[k])
    {
      if p.targetRefs[i] in backends {
        return true;
      }
    }
    return false;
  }

  lemma PoliciesStep(r: Route, valid: string -> bool, ps: seq<Policy>, n: nat)
    requires n < |ps|
    ensures FromPolicies(r, valid, ps[..n + 1])
         == FromPolicies(r, valid, ps[..n])
            + (if Targets(r, ps[n]) then FromQuotas(r, valid, ps[n].targetRefs, ps[n].quotas) else [])
  {
    assert ps[..n + 1][..n] == ps[..n] && ps[..n + 1][n] == ps[n];
  }

  /** A failed List of the policies injects nothing. */
  method InjectQuotaPolicyCostExpressions(r: Route, valid: string -> bool, policies: Option<seq<Policy>>)
    returns (costs: seq<Cost>)
    ensures costs == if policies.Some? then Emitted(r, FromPolicies(r, valid, policies.value)) else []
  {
    costs := [];
    if policies.None? {
      return;
    }
    var ps := policies.value;
    var injected: set<string> := {};
    var backends, models := CollectRoute(r);
    ghost var seen: seq<Candidate> := [];
    for n := 0 to |ps|
      invariant seen == FromPolicies(r, valid, ps[..n]) && Tracks(r, seen, costs, injected)
    {
      PoliciesStep(r, valid, ps, n);
      var targets := TargetsRoute(r, backends, ps[n]);
      if targets {
        costs, injected, seen := InjectQuotas(r, valid, models, ps[n], seen, costs, injected);
      }
    }
    assert ps[..|ps|] == ps;
  }

  /* ---- What the entries mean ---- */

  predicate NulFree(cs: seq<Candidate>) { forall i :: 0 <= i < |cs| ==> '\0' !in cs[i].model }

  /** NUL-free models make the dedupe key as good as the (model, backend) pair. */
  lemma KeyInjective(ns: string, a: Candidate, b: Candidate)
    requires '\0' !in a.model && '\0' !in b.model
    ensures DedupeKey(ns, a) == DedupeKey(ns, b) <==> a.model == b.model && a.backend == b.backend
  {
    if DedupeKey(ns, a) == DedupeKey(ns, b) {
      var x, y := BackendKey(ns, a.backend), BackendKey(ns, b.backend);
      assert DedupeKey(ns, a) == COST_KEY + Sep('\0') + (a.model + Sep('\0') + x);
      assert DedupeKey(ns, b) == COST_KEY + Sep('\0') + (b.model + Sep('\0') + y);
      FirstSepInjective(COST_KEY, a.model + Sep('\0') + x, COST_KEY, b.model + Sep('\0') + y, '\0');
      FirstSepInjective(a.model, x, b.model, y, '\0');
      assert a.backend == x[|ns| + 1..] && b.backend == y[|ns| + 1..];
    }
  }

  /** Which (policy, quota, reference) triples are candidates. */
  lemma {:induction false} QuotasMembers(r: Route, valid: string -> bool, refs: seq<string>, quotas: seq<Quota>,
                                         c: Candidate)
    ensures c in FromQuotas(r, valid, refs, quotas) <==>
              c.backend in refs && exists k :: 0 <= k < |quotas| && Applies(r, valid, quotas[k])
                                               && quotas[k].model == Some(c.model) && quotas[k].Expr() == c.expr
    decreases |quotas|
  {
    if quotas != [] {
      var q, front := quotas[|quotas| - 1], quotas[..|quotas| - 1];
      QuotasMembers(r, valid, refs, front, c);
      if Applies(r, valid, q) {
        assert c in FromQuota(q, refs) <==> c.backend in refs && q.model == Some(c.model) && q.Expr() == c.expr by {
          if c.backend in refs && q.model == Some(c.model) && q.Expr() == c.expr {
            var i :| 0 <= i < |refs| && refs[i] == c.backend;
            assert FromQuota(q, refs)[i] == c;
          }
        }
      }
      assert forall k :: 0 <= k < |front| ==> front[k] == quotas[k];
    }
  }

  ghost predicate Contributes(r: Route, valid: string -> bool, p: Policy, c: Candidate) {
    && Targets(r, p) && c.backend in p.targetRefs
    && exists k :: 0 <= k < |p.quotas| && Applies(r, valid, p.quotas[k])
                   && p.quotas[k].model == Some(c.model) && p.quotas[k].Expr() == c.expr
  }

  lemma {:induction false} PoliciesMembers(r: Route, valid: string -> bool, ps: seq<Policy>, c: Candidate)
    ensures c in FromPolicies(r, valid, ps) <==> exists i :: 0 <= i < |ps| && Contributes(r, valid, ps[i], c)
    decreases |ps|
  {
    if ps != [] {
      var p, front := ps[|ps| - 1], ps[..|ps| - 1];
      PoliciesMembers(r, valid, front, c);
      QuotasMembers(r, valid, p.targetRefs, p.quotas, c);
      assert forall i :: 0 <= i < |front| ==> front[i] == ps[i];
    }
  }

  predicate IsFor(r: Route, cost: Cost, model: string, backend: string) {
    cost.model == model && cost.backend == BackendKey(r.ns, backend)
  }

  predicate SamePair(c: Candidate, model: string, backend: string) { c.model == model && c.backend == backend }

  ghost predicate HasEntry(r: Route, costs: seq<Cost>, model: string, backend: string) {
    exists k :: 0 <= k < |costs| && IsFor(r, costs[k], model, backend)
  }

  predicate HasCandidate(cs: seq<Candidate>, model: string, backend: string) {
    exists i :: 0 <= i < |cs| && SamePair(cs[i], model, backend)
  }

  lemma CandidateStep(cs: seq<Candidate>, model: string, backend: string)
    requires cs != []
    ensures HasCandidate(cs, model, backend) <==>
              HasCandidate(cs[..|cs| - 1], model, backend) || SamePair(cs[|cs| - 1], model, backend)
  {
    assert cs == cs[..|cs| - 1] + [cs[|cs| - 1]];
  }

  lemma EntryStep(r: Route, costs: seq<Cost>, c: Candidate, model: string, backend: string)
    ensures HasEntry(r, costs + [CostOf(r, c)], model, backend) <==>
              HasEntry(r, costs, model, backend) || SamePair(c, model, backend)
  {
    BackendKeyInjective(r.ns, c.backend, backend);
    var more := costs + [CostOf(r, c)];
    assert more[|costs|] == CostOf(r, c);
    assert forall k :: 0 <= k < |costs| ==> more[k] == costs[k];
  }

  /** A pair has an entry exactly when it has a candidate. */
  lemma {:induction false} EntryIffCandidate(r: Route, cs: seq<Candidate>, model: string, backend: string)
    requires NulFree(cs)
    ensures HasCandidate(cs, model, backend) <==> HasEntry(r, Emitted(r, cs), model, backend)
    decreases |cs|
  {
    if cs != [] {
      var front, c := cs[..|cs| - 1], cs[|cs| - 1];
      EntryIffCandidate(r, front, model, backend);
      CandidateStep(cs, model, backend);
      KeySeen(r, front, c);
      EntryStep(r, Emitted(r, front), c, model, backend);
      if DedupeKey(r.ns, c) in Keys(r.ns, front) {
        assert Emitted(r, cs) == Emitted(r, front);
      }
    }
  }

  /** No pair has two entries. */
  lemma {:induction false} EntryUnique(r: Route, cs: seq<Candidate>, model: string, backend: string, k: nat, l: nat)
    requires NulFree(cs) && k < l < |Emitted(r, cs)| && IsFor(r, Emitted(r, cs)[k], model, backend)
    ensures !IsFor(r, Emitted(r, cs)[l], model, backend)
    decreases |cs|
  {
    var front, c := cs[..|cs| - 1], cs[|cs| - 1];
    if l < |Emitted(r, front)| {
      EntryUnique(r, front, model, backend, k, l);
    } else {
      EntryIffCandidate(r, front, model, backend);
      KeySeen(r, front, c);
      BackendKeyInjective(r.ns, c.backend, backend);
    }
  }

  /** The entry of a pair is made from its first candidate. */
  lemma {:induction false} FirstCandidateDecides(r: Route, cs: seq<Candidate>, i: nat)
    requires NulFree(cs) && i < |cs| && !HasCandidate(cs[..i], cs[i].model, cs[i].backend)
    ensures CostOf(r, cs[i]) in Emitted(r, cs)
    decreases |cs|
  {
    if i < |cs| - 1 {
      var front := cs[..|cs| - 1];
      assert front[..i] == cs[..i];
      FirstCandidateDecides(r, front, i);
    } else {
      KeySeen(r, cs[..i], cs[i]);
    }
  }

  lemma BackendKeyInjective(ns: string, a: string, b: string)
    ensures BackendKey(ns, a) == BackendKey(ns, b) <==> a == b
  {
    assert a == BackendKey(ns, a)[|ns| + 1..] && b == BackendKey(ns, b)[|ns| + 1..];
  }

  lemma KeySeen(r: Route, cs: seq<Candidate>, c: Candidate)
    requires NulFree(cs) && '\0' !in c.model
    ensures DedupeKey(r.ns, c) in Keys(r.ns, cs) <==> HasCandidate(cs, c.model, c.backend)
  {
    forall j | 0 <= j < |cs|
      ensures DedupeKey(r.ns, c) == DedupeKey(r.ns, cs[j]) <==> SamePair(cs[j], c.model, c.backend)
    {
      KeyInjective(r.ns, c, cs[j]);
    }
  }

  /** A (model, backend) pair gets an entry exactly when some listed policy targets the route, names
      that backend, and has a valid quota for that served model. */
  lemma EntryIff(r: Route, valid: string -> bool, ps: seq<Policy>, model: string, backend: string)
    requires NulFree(FromPolicies(r, valid, ps))
    ensures HasEntry(r, Emitted(r, FromPolicies(r, valid, ps)), model, backend) <==>
              exists i, expr :: 0 <= i < |ps| && Contributes(r, valid, ps[i], Candidate(model, backend, expr))
  {
    var cs := FromPolicies(r, valid, ps);
    EntryIffCandidate(r, cs, model, backend);
    if HasCandidate(cs, model, backend) {
      var i :| 0 <= i < |cs| && SamePair(cs[i], model, backend);
      PoliciesMembers(r, valid, ps, cs[i]);
      assert cs[i] == Candidate(model, backend, cs[i].expr);
    }
    if i, expr :| 0 <= i < |ps| && Contributes(r, valid, ps[i], Candidate(model, backend, expr)) {
      var c := Candidate(model, backend, expr);
      PoliciesMembers(r, valid, ps, c);
      var j :| 0 <= j < |cs| && cs[j] == c;
      assert SamePair(cs[j], model, backend);
    }
  }

  lemma {:induction false} PoliciesPrefix(r: Route, valid: string -> bool, ps: seq<Policy>, n: nat)
    requires n <= |ps|
    ensures FromPolicies(r, valid, ps[..n]) <= FromPolicies(r, valid, ps)
    decreases |ps| - n
  {
    if n < |ps| {
      assert ps[..n + 1][..n] == ps[..n];
      PoliciesPrefix(r, valid, ps, n + 1);
    } else {
      assert ps[..n] == ps;
    }
  }

  lemma SameEntry(r: Route, cs: seq<Candidate>, model: string, backend: string, a: Cost, b: Cost)
    requires NulFree(cs) && a in Emitted(r, cs) && b in Emitted(r, cs) && IsFor(r, a, model, backend)
             && IsFor(r, b, model, backend)
    ensures a == b
  {
    var all := Emitted(r, cs);
    var k :| 0 <= k < |all| && all[k] == a;
    var l :| 0 <= l < |all| && all[l] == b;
    if k < l {
      EntryUnique(r, cs, model, backend, k, l);
    } else if l < k {
      EntryUnique(r, cs, model, backend, l, k);
    }
  }

  /** Entries that the policies so far have given stay as they are and stay alone: later policies
      neither change nor double them. */
  lemma EarlierEntriesStay(r: Route, valid: string -> bool, ps: seq<Policy>, n: nat,
                           model: string, backend: string, cost: Cost)
    requires n <= |ps| && NulFree(FromPolicies(r, valid, ps))
    requires cost in Emitted(r, FromPolicies(r, valid, ps[..n])) && IsFor(r, cost, model, backend)
    ensures cost in Emitted(r, FromPolicies(r, valid, ps))
    ensures forall other :: other in Emitted(r, FromPolicies(r, valid, ps)) && IsFor(r, other, model, backend) ==>
              other == cost
  {
    var cs := FromPolicies(r, valid, ps);
    PoliciesPrefix(r, valid, ps, n);
    EmittedPrefix(r, FromPolicies(r, valid, ps[..n]), cs);
    forall other | other in Emitted(r, cs) && IsFor(r, other, model, backend) ensures other == cost {
      SameEntry(r, cs, model, backend, cost, other);
    }
  }

  /** The quota applies to this route and is for this model. */
  predicate QuotaFor(r: Route, valid: string -> bool, q: Quota, model: string) {
    Applies(r, valid, q) && q.model == Some(model)
  }

  /** The policy targets the route, lists the backend and has an applying quota for the model. */
  predicate PolicyFor(r: Route, valid: string -> bool, p: Policy, model: string, backend: string) {
    && Targets(r, p) && backend in p.targetRefs
    && exists k :: 0 <= k < |p.quotas| && QuotaFor(r, valid, p.quotas[k], model)
  }

  /** Policies that are not for the pair contribute no candidate to it. */
  lemma NoPolicyNoCandidate(r: Route, valid: string -> bool, ps: seq<Policy>, model: string, backend: string)
    requires forall j :: 0 <= j < |ps| ==> !PolicyFor(r, valid, ps[j], model, backend)
    ensures !HasCandidate(FromPolicies(r, valid, ps), model, backend)
  {
    var cs := FromPolicies(r, valid, ps);
    forall n | 0 <= n < |cs| ensures !SamePair(cs[n], model, backend) {
      PoliciesMembers(r, valid, ps, cs[n]);
      var i :| 0 <= i < |ps| && Contributes(r, valid, ps[i], cs[n]);
      var quotas := ps[i].quotas;
      var k :| 0 <= k < |quotas| && Applies(r, valid, quotas[k]) && quotas[k].model == Some(cs[n].model);
      assert QuotaFor(r, valid, quotas[k], cs[n].model);
    }
  }

  lemma NoQuotaNoCandidate(r: Route, valid: string -> bool, refs: seq<string>, quotas: seq<Quota>, model: string,
                           backend: string)
    requires forall k :: 0 <= k < |quotas| ==> !QuotaFor(r, valid, quotas[k], model)
    ensures !HasCandidate(FromQuotas(r, valid, refs, quotas), model, backend)
  {
    var cs := FromQuotas(r, valid, refs, quotas);
    forall n | 0 <= n < |cs| ensures !SamePair(cs[n], model, backend) {
      QuotasMembers(r, valid, refs, quotas, cs[n]);
    }
  }

  /** Every entry is made from a candidate. */
  lemma {:induction false} EntryFrom(r: Route, cs: seq<Candidate>, cost: Cost) returns (c: Candidate)
    requires cost in Emitted(r, cs)
    ensures c in cs && cost == CostOf(r, c)
    decreases |cs|
  {
    var front, last := cs[..|cs| - 1], cs[|cs| - 1];
    if cost in Emitted(r, front) {
      c := EntryFrom(r, front, cost);
    } else {
      c := last;
    }
  }

  lemma {:induction false} QuotasPrefix(r: Route, valid: string -> bool, refs: seq<string>, quotas: seq<Quota>, n: nat)
    requires n <= |quotas|
    ensures FromQuotas(r, valid, refs, quotas[..n]) <= FromQuotas(r, valid, refs, quotas)
    decreases |quotas| - n
  {
    if n < |quotas| {
      assert quotas[..n + 1][..n] == quotas[..n];
      QuotasPrefix(r, valid, refs, quotas, n + 1);
    } else {
      assert quotas[..n] == quotas;
    }
  }

  /** The candidates up to and including those of quota `k` of policy `i` are a prefix of all. */
  lemma UpToQuota(r: Route, valid: string -> bool, ps: seq<Policy>, i: nat, k: nat)
    requires i < |ps| && Targets(r, ps[i]) && k < |ps[i].quotas| && Applies(r, valid, ps[i].quotas[k])
    ensures FromPolicies(r, valid, ps[..i])
            + (FromQuotas(r, valid, ps[i].targetRefs, ps[i].quotas[..k]) + FromQuota(ps[i].quotas[k], ps[i].targetRefs))
         <= FromPolicies(r, valid, ps)
  {
    var p := ps[i];
    PoliciesStep(r, valid, ps, i);
    PoliciesPrefix(r, valid, ps, i + 1);
    QuotasStep(r, valid, p.targetRefs, p.quotas, k, []);
    var mine := FromQuotas(r, valid, p.targetRefs, p.quotas[..k]);
    var next := FromQuotas(r, valid, p.targetRefs, p.quotas[..k + 1]);
    assert [] + mine == mine && [] + next == next;
    QuotasPrefix(r, valid, p.targetRefs, p.quotas, k + 1);
    PrefixUnder(FromPolicies(r, valid, ps[..i]), mine + FromQuota(p.quotas[k], p.targetRefs),
                FromQuotas(r, valid, p.targetRefs, p.quotas), FromPolicies(r, valid, ps));
  }

  lemma PrefixUnder(a: seq<Candidate>, b: seq<Candidate>, c: seq<Candidate>, all: seq<Candidate>)
    requires b <= c && a + c <= all
    ensures a + b <= all
  {
    assert all[..|a + c|] == a + c && c[..|b|] == b;
    assert (a + c)[..|a + b|] == a + b;
  }

  lemma CandidateConcat(a: seq<Candidate>, b: seq<Candidate>, model: string, backend: string)
    ensures HasCandidate(a + b, model, backend) <==> HasCandidate(a, model, backend) || HasCandidate(b, model, backend)
  {
    assert forall n :: 0 <= n < |a| ==> (a + b)[n] == a[n];
    assert forall n :: 0 <= n < |b| ==> (a + b)[|a| + n] == b[n];
  }

  /** In the first candidates of a pair, all of one quota, every one has that quota's expression. */
  lemma FirstExpression(before: seq<Candidate>, q: Quota, refs: seq<string>, model: string, backend: string)
    requires q.model == Some(model) && backend in refs && !HasCandidate(before, model, backend)
    ensures HasCandidate(before + FromQuota(q, refs), model, backend)
    ensures forall c :: c in before + FromQuota(q, refs) && SamePair(c, model, backend) ==> c.expr == q.Expr()
  {
    var i :| 0 <= i < |refs| && refs[i] == backend;
    assert SamePair(FromQuota(q, refs)[i], model, backend);
    CandidateConcat(before, FromQuota(q, refs), model, backend);
  }

  /** The candidates up to the first for the pair, and what they say of it. */
  lemma FirstCandidates(r: Route, valid: string -> bool, ps: seq<Policy>, i: nat, k: nat, model: string,
                        backend: string)
    returns (upTo: seq<Candidate>)
    requires i < |ps| && PolicyFor(r, valid, ps[i], model, backend)
    requires forall j :: 0 <= j < i ==> !PolicyFor(r, valid, ps[j], model, backend)
    requires k < |ps[i].quotas| && QuotaFor(r, valid, ps[i].quotas[k], model)
    requires forall l :: 0 <= l < k ==> !QuotaFor(r, valid, ps[i].quotas[l], model)
    ensures upTo <= FromPolicies(r, valid, ps) && HasCandidate(upTo, model, backend)
    ensures forall c :: c in upTo && SamePair(c, model, backend) ==> c.expr == ps[i].quotas[k].Expr()
  {
    var p, q := ps[i], ps[i].quotas[k];
    var earlier, mine := FromPolicies(r, valid, ps[..i]), FromQuotas(r, valid, p.targetRefs, p.quotas[..k]);
    NoPolicyNoCandidate(r, valid, ps[..i], model, backend);
    NoQuotaNoCandidate(r, valid, p.targetRefs, p.quotas[..k], model, backend);
    CandidateConcat(earlier, mine, model, backend);
    FirstExpression(earlier + mine, q, p.targetRefs, model, backend);
    upTo := earlier + mine + FromQuota(q, p.targetRefs);
    UpToQuota(r, valid, ps, i, k);
    assert upTo == earlier + (mine + FromQuota(q, p.targetRefs));
  }

  /** A pair's one entry has the expression of the first policy for the pair and, within it, of the
      first applying quota for the model. */
  lemma FirstQuotaDecides(r: Route, valid: string -> bool, ps: seq<Policy>, i: nat, k: nat, model: string,
                          backend: string)
    requires NulFree(FromPolicies(r, valid, ps))
    requires i < |ps| && PolicyFor(r, valid, ps[i], model, backend)
    requires forall j :: 0 <= j < i ==> !PolicyFor(r, valid, ps[j], model, backend)
    requires k < |ps[i].quotas| && QuotaFor(r, valid, ps[i].quotas[k], model)
    requires forall l :: 0 <= l < k ==> !QuotaFor(r, valid, ps[i].quotas[l], model)
    ensures var q := ps[i].quotas[k];
            forall cost ::
              cost in Emitted(r, FromPolicies(r, valid, ps))
              && cost.model == model && cost.backend == r.ns + "/" + backend
              <==> cost == Cost(if q.cost.Some? then q.cost.value else "total_tokens",
                                r.ns + "/" + backend, r.ns + "/" + r.name, model)
  {
    var upTo := FirstCandidates(r, valid, ps, i, k, model, backend);
    OnlyEntry(r, upTo, FromPolicies(r, valid, ps), model, backend, ps[i].quotas[k].Expr());
  }

  lemma OnlyEntry(r: Route, upTo: seq<Candidate>, all: seq<Candidate>, model: string, backend: string, expr: string)
    requires upTo <= all && NulFree(all) && HasCandidate(upTo, model, backend)
    requires forall c :: c in upTo && SamePair(c, model, backend) ==> c.expr == expr
    ensures forall cost :: cost in Emitted(r, all) && IsFor(r, cost, model, backend)
                           <==> cost == CostOf(r, Candidate(model, backend, expr))
  {
    var cost := EntryOf(r, upTo, model, backend, expr);
    EmittedPrefix(r, upTo, all);
    assert cost in Emitted(r, all);
    forall other | other in Emitted(r, all) && IsFor(r, other, model, backend) ensures other == cost {
      SameEntry(r, all, model, backend, cost, other);
    }
  }

  lemma EntryOf(r: Route, cs: seq<Candidate>, model: string, backend: string, expr: string) returns (cost: Cost)
    requires NulFree(cs) && HasCandidate(cs, model, backend)
    requires forall c :: c in cs && SamePair(c, model, backend) ==> c.expr == expr
    ensures cost in Emitted(r, cs) && cost == CostOf(r, Candidate(model, backend, expr))
  {
    EntryIffCandidate(r, cs, model, backend);
    var n :| 0 <= n < |Emitted(r, cs)| && IsFor(r, Emitted(r, cs)[n], model, backend);
    cost := Emitted(r, cs)[n];
    var c := EntryFrom(r, cs, cost);
    BackendKeyInjective(r.ns, c.backend, backend);
  }

  /* ---- The entries, spelled out ---- */

  predicate Overrides(r: Route) {
    exists x, y :: 0 <= x < |r.rules| && 0 <= y < |r.rules[x]| && r.rules[x][y].modelOverride != ""
  }

  predicate OverridesTo(r: Route, model: string) {
    exists x, y :: 0 <= x < |r.rules| && 0 <= y < |r.rules[x]| && r.rules[x][y].modelOverride == model
  }

  predicate Refers(r: Route, backend: string) {
    exists x, y :: 0 <= x < |r.rules| && 0 <= y < |r.rules[x]| && r.rules[x][y].name == backend
  }

  /** Quota `k` of the policy asks for a cost entry of backend `t`: it names a model, one the route
      overrides to if it overrides any, its expression is valid, and some target of the policy is
      a backend of the route. */
  ghost predicate Asks(r: Route, valid: string -> bool, p: Policy, k: nat, t: nat) {
    && k < |p.quotas| && t < |p.targetRefs| && p.quotas[k].model.Some?
    && (Overrides(r) ==> p.quotas[k].model.value != "" && OverridesTo(r, p.quotas[k].model.value))
    && valid(if p.quotas[k].cost.Some? then p.quotas[k].cost.value else "total_tokens")
    && exists u :: 0 <= u < |p.targetRefs| && Refers(r, p.targetRefs[u])
  }

  lemma AsksIff(r: Route, valid: string -> bool, p: Policy, k: nat, t: nat)
    ensures Asks(r, valid, p, k, t) <==>
              k < |p.quotas| && t < |p.targetRefs| && Applies(r, valid, p.quotas[k]) && Targets(r, p)
  {
    assert Overrides(r) <==> HasAnyModel(r);
    if k < |p.quotas| && t < |p.targetRefs| && p.quotas[k].model.Some? {
      var m := p.quotas[k].model.value;
      assert HasModel(r, m) <==> m != "" && OverridesTo(r, m);
    }
    assert forall u :: 0 <= u < |p.targetRefs| ==> (Refers(r, p.targetRefs[u]) <==> HasBackend(r, p.targetRefs[u]));
  }

  /** Every entry was asked for, and holds what was asked: the quota's expression or the default, the
      target in the route's namespace, the route, the quota's model. */
  lemma EntryWasAsked(r: Route, valid: string -> bool, ps: seq<Policy>, cost: Cost) returns (i: nat, k: nat, t: nat)
    requires cost in Emitted(r, FromPolicies(r, valid, ps))
    ensures i < |ps| && Asks(r, valid, ps[i], k, t)
    ensures cost == Cost(if ps[i].quotas[k].cost.Some? then ps[i].quotas[k].cost.value else "total_tokens",
                         r.ns + "/" + ps[i].targetRefs[t], r.ns + "/" + r.name, ps[i].quotas[k].model.value)
  {
    var c := EntryFrom(r, FromPolicies(r, valid, ps), cost);
    PoliciesMembers(r, valid, ps, c);
    i :| 0 <= i < |ps| && Contributes(r, valid, ps[i], c);
    k :| 0 <= k < |ps[i].quotas| && Applies(r, valid, ps[i].quotas[k])
         && ps[i].quotas[k].model == Some(c.model) && ps[i].quotas[k].Expr() == c.expr;
    t :| 0 <= t < |ps[i].targetRefs| && ps[i].targetRefs[t] == c.backend;
    AsksIff(r, valid, ps[i], k, t);
  }

  /** And whatever is asked for gets an entry. */
  lemma AskedHasEntry(r: Route, valid: string -> bool, ps: seq<Policy>, i: nat, k: nat, t: nat)
    requires NulFree(FromPolicies(r, valid, ps)) && i < |ps| && Asks(r, valid, ps[i], k, t)
    ensures exists cost :: cost in Emitted(r, FromPolicies(r, valid, ps)) && cost.model == ps[i].quotas[k].model.value
                           && cost.backend == r.ns + "/" + ps[i].targetRefs[t]
  {
    AsksIff(r, valid, ps[i], k, t);
    var q := ps[i].quotas[k];
    var model, backend := q.model.value, ps[i].targetRefs[t];
    assert Contributes(r, valid, ps[i], Candidate(model, backend, q.Expr()));
    EntryIff(r, valid, ps, model, backend);
    var n :| 0 <= n < |Emitted(r, FromPolicies(r, valid, ps))|
             && IsFor(r, Emitted(r, FromPolicies(r, valid, ps))[n], model, backend);
    assert Emitted(r, FromPolicies(r, valid, ps))[n] in Emitted(r, FromPolicies(r, valid, ps));
  }

  lemma {:induction false} EmittedPrefix(r: Route, a: seq<Candidate>, b: seq<Candidate>)
    requires a <= b
    ensures Emitted(r, a) <= Emitted(r, b)
    decreases |b|
  {
    if |a| < |b| {
      EmittedPrefix(r, a, b[..|b| - 1]);
    } else {
      assert a == b;
    }
  }
}
