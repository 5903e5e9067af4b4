/** The per-backend resources of one MCPRoute (internal/controller/mcp_route.go): an HTTPRoute and an
    HTTPRouteFilter per backend, a credential Secret for some, and the removal of orphans. The
    state is the route's namespace. */
module McpLifecycle {
  import opened Text

  const BR := "ai-eg-mcp-br-"
  const BRF := "ai-eg-mcp-brf-"
  const CRED := "ai-eg-mcp-cred-"
  const CREDENTIAL := "credential"
  const API_KEY := "apiKey"

  datatype ApiKey = ApiKey(queryParam: Option<string>, inlineKey: Option<string>, secretRef: Option<string>,
                           header: Option<string>)
  /** A backend reference; what else it configures is copied into the HTTPRoute and stands in `rest`. */
  datatype Ref = Ref(name: string, ns: Option<string>, apiKey: Option<ApiKey>, rest: string) {
    /** The key is injected from a managed Secret: a secretRef with neither queryParam nor inline. */
    predicate WantsSecret() {
      apiKey.Some? && apiKey.value.queryParam.None? && apiKey.value.inlineKey.None? && apiKey.value.secretRef.Some?
    }
  }

  datatype HttpRoute = HttpRoute(owned: bool, ref: Ref)
  /** `cred` names the Secret of the credential injection, "" if there is none. */
  datatype Filter = Filter(cred: string, header: Option<string>)
  type Secret = map<string, string>
  datatype State = State(routes: map<string, HttpRoute>, filters: map<string, Filter>, secrets: map<string, Secret>)

  /* ---- Names ---- */

  function RouteName(r: string, b: string): string { BR + r + "-" + b }

  function FilterName(r: string, b: string): string { BRF + r + "-" + b }

  function SecretName(r: string, b: string): string { CRED + r + "-" + b }

  /** `strings.Replace(s, old, new, 1)`. */
  function ReplaceFirst(s: string, old': string, new': string): string {
    if old' <= s then new' + s[|old'|..] else if s == "" then s else [s[0]] + ReplaceFirst(s[1..], old', new')
  }

  function TrimPrefix(s: string, p: string): string { if p <= s then s[|p|..] else s }

  /** The names the orphan path derives from an HTTPRoute's name. */
  function FilterOf(route: string): string { ReplaceFirst(route, BR, BRF) }

  function SecretOf(route: string): string { CRED + TrimPrefix(route, BR) }

  /** For every per-backend HTTPRoute they are the names its creator used; and no other HTTPRoute
      with the prefix leads to them. */
  lemma OrphanNames(r: string, b: string, route: string)
    requires BR <= route
    ensures BR <= RouteName(r, b)
    ensures FilterOf(RouteName(r, b)) == FilterName(r, b) && SecretOf(RouteName(r, b)) == SecretName(r, b)
    ensures FilterOf(route) == FilterName(r, b) <==> route == RouteName(r, b)
    ensures SecretOf(route) == SecretName(r, b) <==> route == RouteName(r, b)
  {
    var tail := r + "-" + b;
    assert RouteName(r, b) == BR + tail && FilterName(r, b) == BRF + tail && SecretName(r, b) == CRED + tail;
    assert RouteName(r, b)[|BR|..] == tail;
    assert FilterOf(route) == BRF + route[|BR|..] && SecretOf(route) == CRED + route[|BR|..];
    assert route == BR + route[|BR|..];
    assert FilterOf(route)[|BRF|..] == route[|BR|..] && FilterName(r, b)[|BRF|..] == tail;
    assert SecretOf(route)[|CRED|..] == route[|BR|..] && SecretName(r, b)[|CRED|..] == tail;
  }

  lemma NamesInjective(r: string, b: string, c: string)
    ensures RouteName(r, b) == RouteName(r, c) <==> b == c
    ensures FilterName(r, b) == FilterName(r, c) <==> b == c
    ensures SecretName(r, b) == SecretName(r, c) <==> b == c
  {
    assert RouteName(r, b)[|BR| + |r| + 1..] == b && RouteName(r, c)[|BR| + |r| + 1..] == c;
    assert FilterName(r, b)[|BRF| + |r| + 1..] == b && FilterName(r, c)[|BRF| + |r| + 1..] == c;
    assert SecretName(r, b)[|CRED| + |r| + 1..] == b && SecretName(r, c)[|CRED| + |r| + 1..] == c;
  }

  /* ---- One backend ---- */

  /** `readAPIKey`: a non-empty inline key, or the "apiKey" entry of the referenced Secret. */
  function ReadKey(secrets: map<string, Secret>, k: ApiKey): Option<string> {
    if k.inlineKey.Some? && k.inlineKey.value != "" then k.inlineKey
    else if k.secretRef.Some? && k.secretRef.value in secrets && API_KEY in secrets[k.secretRef.value]
    then Some(secrets[k.secretRef.value][API_KEY])
    else None
  }

  /** The credential is sent verbatim; only the default header gets a scheme. */
  function CredentialValue(k: ApiKey, key: string): string {
    if Deref(k.header, "Authorization") == "Authorization" then "Bearer " + key else key
  }

  /** The stored credential; a missing entry reads as the empty string. */
  function Stored(secret: Secret): string { if CREDENTIAL in secret then secret[CREDENTIAL] else "" }

  function PutCredential(secrets: map<string, Secret>, name: string, value: string): map<string, Secret> {
    if name in secrets && Stored(secrets[name]) == value then secrets else secrets[name := map[CREDENTIAL := value]]
  }

  /** Credential handling of one reference: the Secrets afterwards, or None if the key cannot be read. */
  function Credentials(r: string, secrets: map<string, Secret>, ref: Ref): Option<map<string, Secret>> {
    if ref.apiKey.None? then Some(secrets) else
      var k := ref.apiKey.value;
      if k.queryParam.Some? then (if ReadKey(secrets, k).Some? then Some(secrets) else None)
      else if ref.WantsSecret() then
        var key := ReadKey(secrets, k);
        (if key.None? then None
         else Some(PutCredential(secrets, SecretName(r, ref.name), CredentialValue(k, key.value))))
      else Some(secrets)
  }

  function CredOf(r: string, ref: Ref): string { if ref.WantsSecret() then SecretName(r, ref.name) else "" }

  function FilterFor(r: string, ref: Ref): Filter {
    if ref.WantsSecret() then Filter(SecretName(r, ref.name), ref.apiKey.value.header) else Filter("", None)
  }

  function PreviousCred(filters: map<string, Filter>, name: string): string {
    if name in filters then filters[name].cred else ""
  }

  /** The Secret a filter stops injecting is deleted with the transition. */
  function DropPrevious(secrets: map<string, Secret>, previous: string, cred: string): map<string, Secret> {
    if previous != "" && previous != cred then secrets - {previous} else secrets
  }

  /** One reference, completely synced; None if it is refused. `listed`: the per-backend HTTPRoutes
      found before, minus those already handled. A name that is taken but not listed cannot be
      created. */
  function SyncRef(r: string, ns: string, s: State, listed: set<string>, ref: Ref): Option<State> {
    var name := RouteName(r, ref.name);
    var secrets := Credentials(r, s.secrets, ref);
    if (ref.ns.Some? && ref.ns.value != ns) || secrets.None? || (name in s.routes && name !in listed) then None else
      var fname := FilterName(r, ref.name);
      Some(State(s.routes[name := HttpRoute(true, ref)],
                 s.filters[fname := FilterFor(r, ref)],
                 DropPrevious(secrets.value, PreviousCred(s.filters, fname), CredOf(r, ref))))
  }

  function RouteNames(r: string, refs: seq<Ref>): set<string> {
    set i | 0 <= i < |refs| :: RouteName(r, refs[i].name)
  }

  /** All references in order. */
  function SyncRefs(r: string, ns: string, s: State, listed: set<string>, refs: seq<Ref>): Option<State> {
    if refs == [] then Some(s) else
      var front := refs[..|refs| - 1];
      var t := SyncRefs(r, ns, s, listed, front);
      if t.None? then None else SyncRef(r, ns, t.value, listed - RouteNames(r, front), refs[|refs| - 1])
  }

  /* ---- The whole sync ---- */

  function Listed(s: State): set<string> { set n | n in s.routes && s.routes[n].owned && BR <= n }

  /** Orphans go with the filter and the Secret their name leads to, in any order. */
  function WithoutOrphans(s: State, orphans: set<string>): State {
    State(s.routes - orphans, s.filters - (set n | n in orphans :: FilterOf(n)),
          s.secrets - (set n | n in orphans :: SecretOf(n)))
  }

  function Orphans(r: string, s: State, refs: seq<Ref>): set<string> { Listed(s) - RouteNames(r, refs) }

  /** The state after a completed sync, None if the sync ends in an error. */
  function Synced(r: string, ns: string, s: State, refs: seq<Ref>): Option<State> {
    var t := SyncRefs(r, ns, s, Listed(s), refs);
    if t.None? then None else Some(WithoutOrphans(t.value, Orphans(r, s, refs)))
  }

  /* ---- What syncing the references does, name by name ---- */

  /** A filter of this route injects its own backend's Secret or nothing. */
  ghost predicate OwnCredentials(r: string, s: State) {
    forall b :: FilterName(r, b) in s.filters ==> s.filters[FilterName(r, b)].cred in {"", SecretName(r, b)}
  }

  predicate Named(refs: seq<Ref>, b: string) { exists i :: 0 <= i < |refs| && refs[i].name == b }

  predicate DistinctNames(refs: seq<Ref>) { forall i, j :: 0 <= i < j < |refs| ==> refs[i].name != refs[j].name }

  /** A completed sync means the names were distinct: the second of two equal ones could not be created. */
  lemma {:induction false} SyncedNamesDistinct(r: string, ns: string, s: State, listed: set<string>, refs: seq<Ref>)
    requires SyncRefs(r, ns, s, listed, refs).Some?
    ensures DistinctNames(refs)
    ensures forall i :: 0 <= i < |refs| ==> RouteName(r, refs[i].name) in SyncRefs(r, ns, s, listed, refs).value.routes
    decreases |refs|
  {
    if refs != [] {
      var front, ref := refs[..|refs| - 1], refs[|refs| - 1];
      SyncedNamesDistinct(r, ns, s, listed, front);
      var t := SyncRefs(r, ns, s, listed, front).value;
      assert RouteName(r, ref.name) in t.routes ==> RouteName(r, ref.name) !in RouteNames(r, front);
      forall i | 0 <= i < |front|
        ensures refs[i] == front[i] && RouteName(r, front[i].name) in t.routes && front[i].name != ref.name
      {
        assert RouteName(r, front[i].name) in RouteNames(r, front);
      }
    }
  }

  /** HTTPRoutes: those of the references are set, all others stay. */
  lemma {:induction false} RoutesAfter(r: string, ns: string, s: State, listed: set<string>, refs: seq<Ref>)
    requires SyncRefs(r, ns, s, listed, refs).Some?
    ensures var t := SyncRefs(r, ns, s, listed, refs).value;
            && t.routes.Keys == s.routes.Keys + RouteNames(r, refs)
            && (forall n :: n in s.routes && n !in RouteNames(r, refs) ==> t.routes[n] == s.routes[n])
    decreases |refs|
  {
    if refs != [] {
      var front, ref := refs[..|refs| - 1], refs[|refs| - 1];
      RoutesAfter(r, ns, s, listed, front);
      RouteNamesStep(r, refs, |refs| - 1);
      assert refs[..|refs|] == refs;
    }
  }

  /** Filters: those of the references are set, all others of the route stay. */
  lemma {:induction false} FilterAfter(r: string, ns: string, s: State, listed: set<string>, refs: seq<Ref>, b: string)
    requires SyncRefs(r, ns, s, listed, refs).Some?
    ensures var t, f := SyncRefs(r, ns, s, listed, refs).value, FilterName(r, b);
            && (f in t.filters <==> f in s.filters || Named(refs, b))
            && (f in s.filters && !Named(refs, b) ==> t.filters[f] == s.filters[f])
    decreases |refs|
  {
    if refs != [] {
      FilterAfter(r, ns, s, listed, refs[..|refs| - 1], b);
      NamedStep(refs, b);
      NamesInjective(r, b, refs[|refs| - 1].name);
    }
  }

  lemma NamedStep(refs: seq<Ref>, b: string)
    requires refs != []
    ensures Named(refs, b) <==> Named(refs[..|refs| - 1], b) || b == refs[|refs| - 1].name
  {
    var front := refs[..|refs| - 1];
    assert refs == front + [refs[|refs| - 1]];
  }

  /** Each reference's HTTPRoute and filter hold what the reference asks for. */
  lemma {:induction false} RefContents(r: string, ns: string, s: State, listed: set<string>, refs: seq<Ref>, i: nat)
    requires SyncRefs(r, ns, s, listed, refs).Some? && i < |refs|
    ensures var t := SyncRefs(r, ns, s, listed, refs).value; var b := refs[i].name;
            && RouteName(r, b) in t.routes && t.routes[RouteName(r, b)] == HttpRoute(true, refs[i])
            && FilterName(r, b) in t.filters && t.filters[FilterName(r, b)] == FilterFor(r, refs[i])
    decreases |refs|
  {
    SyncedNamesDistinct(r, ns, s, listed, refs);
    if i < |refs| - 1 {
      var front := refs[..|refs| - 1];
      RefContents(r, ns, s, listed, front, i);
      NamesInjective(r, refs[i].name, refs[|refs| - 1].name);
    }
  }

  /** A credential Secret, if any, under a name. */
  function SecretAt(s: State, name: string): Option<Secret> {
    if name in s.secrets then Some(s.secrets[name]) else None
  }

  /** When its turn comes, a reference finds its filter as it was before the sync. */
  lemma PreviousUnchanged(r: string, ns: string, s: State, listed: set<string>, refs: seq<Ref>)
    requires refs != [] && SyncRefs(r, ns, s, listed, refs).Some? && OwnCredentials(r, s)
    ensures var front, f := refs[..|refs| - 1], FilterName(r, refs[|refs| - 1].name);
            && PreviousCred(SyncRefs(r, ns, s, listed, front).value.filters, f) == PreviousCred(s.filters, f)
            && PreviousCred(s.filters, f) in {"", SecretName(r, refs[|refs| - 1].name)}
  {
    var front, ref := refs[..|refs| - 1], refs[|refs| - 1];
    SyncedNamesDistinct(r, ns, s, listed, refs);
    FilterAfter(r, ns, s, listed, front, ref.name);
    assert !Named(front, ref.name) by {
      assert forall i :: 0 <= i < |front| ==> front[i] == refs[i];
    }
  }

  /** The last reference touches its own Secret only. */
  lemma LastSecret(r: string, ns: string, s: State, listed: set<string>, refs: seq<Ref>, name: string)
    requires refs != [] && SyncRefs(r, ns, s, listed, refs).Some? && OwnCredentials(r, s)
    requires name != SecretName(r, refs[|refs| - 1].name)
    ensures SecretAt(SyncRefs(r, ns, s, listed, refs).value, name)
         == SecretAt(SyncRefs(r, ns, s, listed, refs[..|refs| - 1]).value, name)
  {
    PreviousUnchanged(r, ns, s, listed, refs);
  }

  /** The Secret of a backend that is not referenced stays as it was. */
  lemma {:induction false} OtherSecrets(r: string, ns: string, s: State, listed: set<string>, refs: seq<Ref>,
                                        name: string)
    requires SyncRefs(r, ns, s, listed, refs).Some? && OwnCredentials(r, s)
    requires forall i :: 0 <= i < |refs| ==> name != SecretName(r, refs[i].name)
    ensures SecretAt(SyncRefs(r, ns, s, listed, refs).value, name) == SecretAt(s, name)
    decreases |refs|
  {
    if refs != [] {
      LastSecret(r, ns, s, listed, refs, name);
      OtherSecrets(r, ns, s, listed, refs[..|refs| - 1], name);
    }
  }

  /** Whether a referenced backend that wants no Secret still has one: it had one that its filter
      did not inject. */
  predicate KeepsStray(r: string, s: State, b: string) {
    SecretName(r, b) in s.secrets && PreviousCred(s.filters, FilterName(r, b)) != SecretName(r, b)
  }

  /** The Secret of a referenced backend: there if wanted, otherwise gone unless it was a stray. */
  lemma {:induction false} RefSecret(r: string, ns: string, s: State, listed: set<string>, refs: seq<Ref>, i: nat)
    requires SyncRefs(r, ns, s, listed, refs).Some? && OwnCredentials(r, s) && i < |refs|
    ensures var t := SyncRefs(r, ns, s, listed, refs).value; var name := SecretName(r, refs[i].name);
            if refs[i].WantsSecret() then name in t.secrets
            else (name in t.secrets <==> KeepsStray(r, s, refs[i].name))
    decreases |refs|
  {
    var front, ref := refs[..|refs| - 1], refs[|refs| - 1];
    var name := SecretName(r, refs[i].name);
    SyncedNamesDistinct(r, ns, s, listed, refs);
    if i < |refs| - 1 {
      NamesInjective(r, refs[i].name, ref.name);
      LastSecret(r, ns, s, listed, refs, name);
      RefSecret(r, ns, s, listed, front, i);
    } else {
      PreviousUnchanged(r, ns, s, listed, refs);
      forall j | 0 <= j < |front| ensures name != SecretName(r, front[j].name) {
        assert front[j] == refs[j];
        NamesInjective(r, refs[i].name, front[j].name);
      }
      OtherSecrets(r, ns, s, listed, front, name);
    }
  }

  /* ---- Exactness ---- */

  ghost predicate RoutesExact(r: string, s: State, refs: seq<Ref>) {
    && Listed(s) == RouteNames(r, refs)
    && forall i :: 0 <= i < |refs| ==>
         RouteName(r, refs[i].name) in s.routes && s.routes[RouteName(r, refs[i].name)] == HttpRoute(true, refs[i])
  }

  ghost predicate FiltersExact(r: string, s: State, refs: seq<Ref>) {
    && (forall b :: FilterName(r, b) in s.filters <==> Named(refs, b))
    && forall i :: 0 <= i < |refs| ==>
         FilterName(r, refs[i].name) in s.filters && s.filters[FilterName(r, refs[i].name)] == FilterFor(r, refs[i])
  }

  predicate Wanted(refs: seq<Ref>, b: string) {
    exists i :: 0 <= i < |refs| && refs[i].name == b && refs[i].WantsSecret()
  }

  ghost predicate SecretsExact(r: string, s: State, refs: seq<Ref>) {
    forall b :: SecretName(r, b) in s.secrets <==> Wanted(refs, b)
  }

  /** The route's resources are exactly those its references ask for. */
  ghost predicate Exact(r: string, s: State, refs: seq<Ref>) {
    RoutesExact(r, s, refs) && FiltersExact(r, s, refs) && SecretsExact(r, s, refs)
  }

  /** Before a sync: nothing of the route is out of reach. A filter or Secret of a backend that is no
      longer referenced still has its HTTPRoute, and a Secret that is no longer wanted is the one
      its filter injects. */
  ghost predicate StrayFree(r: string, s: State, refs: seq<Ref>) {
    && (forall b :: !Named(refs, b) && FilterName(r, b) in s.filters ==> RouteName(r, b) in Listed(s))
    && (forall b :: !Named(refs, b) && SecretName(r, b) in s.secrets ==> RouteName(r, b) in Listed(s))
    && (forall i :: 0 <= i < |refs| && !refs[i].WantsSecret() ==> !KeepsStray(r, s, refs[i].name))
  }

  lemma RouteNameIn(r: string, refs: seq<Ref>, b: string)
    ensures RouteName(r, b) in RouteNames(r, refs) <==> Named(refs, b)
  {
    if Named(refs, b) {
      var i :| 0 <= i < |refs| && refs[i].name == b;
      assert RouteName(r, refs[i].name) in RouteNames(r, refs);
    }
    if RouteName(r, b) in RouteNames(r, refs) {
      var i :| 0 <= i < |refs| && RouteName(r, refs[i].name) == RouteName(r, b);
      NamesInjective(r, refs[i].name, b);
    }
  }

  /** What the orphan pass removes, seen from a backend's name. */
  lemma OrphansOf(r: string, orphans: set<string>, b: string)
    requires forall n :: n in orphans ==> BR <= n
    ensures FilterName(r, b) in (set n | n in orphans :: FilterOf(n)) <==> RouteName(r, b) in orphans
    ensures SecretName(r, b) in (set n | n in orphans :: SecretOf(n)) <==> RouteName(r, b) in orphans
  {
    forall n | n in orphans ensures FilterOf(n) == FilterName(r, b) <==> n == RouteName(r, b) { OrphanNames(r, b, n); }
    forall n | n in orphans ensures SecretOf(n) == SecretName(r, b) <==> n == RouteName(r, b) { OrphanNames(r, b, n); }
    if RouteName(r, b) in orphans {
      OrphanNames(r, b, RouteName(r, b));
    }
  }

  lemma OrphanIff(r: string, s: State, refs: seq<Ref>, b: string)
    ensures RouteName(r, b) in Orphans(r, s, refs) <==> RouteName(r, b) in Listed(s) && !Named(refs, b)
  {
    RouteNameIn(r, refs, b);
  }

  /** HTTPRoutes are exact after every completed sync, whatever was there before. */
  lemma SyncMakesRoutesExact(r: string, ns: string, s: State, refs: seq<Ref>)
    requires Synced(r, ns, s, refs).Some?
    ensures RoutesExact(r, Synced(r, ns, s, refs).value, refs)
  {
    var listed := Listed(s);
    var mid := SyncRefs(r, ns, s, listed, refs).value;
    var t := Synced(r, ns, s, refs).value;
    RoutesAfter(r, ns, s, listed, refs);
    forall i | 0 <= i < |refs|
      ensures RouteName(r, refs[i].name) in t.routes
              && t.routes[RouteName(r, refs[i].name)] == HttpRoute(true, refs[i]) && BR <= RouteName(r, refs[i].name)
    {
      RefContents(r, ns, s, listed, refs, i);
      OrphanNames(r, refs[i].name, RouteName(r, refs[i].name));
      assert RouteName(r, refs[i].name) in RouteNames(r, refs);
    }
    forall n ensures n in Listed(t) <==> n in RouteNames(r, refs) {
      if n in RouteNames(r, refs) {
        var i :| 0 <= i < |refs| && n == RouteName(r, refs[i].name);
      }
    }
  }

  /** Per backend: which filters and Secrets a completed sync leaves. */
  lemma AfterSync(r: string, ns: string, s: State, refs: seq<Ref>, b: string)
    requires Synced(r, ns, s, refs).Some? && OwnCredentials(r, s)
    ensures var t := Synced(r, ns, s, refs).value;
            && (FilterName(r, b) in t.filters <==>
                  Named(refs, b) || (FilterName(r, b) in s.filters && RouteName(r, b) !in Listed(s)))
            && (!Named(refs, b) ==>
                  (SecretName(r, b) in t.secrets <==> SecretName(r, b) in s.secrets && RouteName(r, b) !in Listed(s)))
  {
    var listed := Listed(s);
    FilterAfter(r, ns, s, listed, refs, b);
    OrphanIff(r, s, refs, b);
    OrphansOf(r, Orphans(r, s, refs), b);
    if !Named(refs, b) {
      forall i | 0 <= i < |refs| ensures SecretName(r, b) != SecretName(r, refs[i].name) {
        NamesInjective(r, b, refs[i].name);
      }
      OtherSecrets(r, ns, s, listed, refs, SecretName(r, b));
    }
  }

  lemma AfterSyncRef(r: string, ns: string, s: State, refs: seq<Ref>, i: nat)
    requires Synced(r, ns, s, refs).Some? && OwnCredentials(r, s) && i < |refs|
    ensures var t, b := Synced(r, ns, s, refs).value, refs[i].name;
            && FilterName(r, b) in t.filters && t.filters[FilterName(r, b)] == FilterFor(r, refs[i])
            && (SecretName(r, b) in t.secrets <==> refs[i].WantsSecret() || KeepsStray(r, s, b))
  {
    var b := refs[i].name;
    RefContents(r, ns, s, Listed(s), refs, i);
    RefSecret(r, ns, s, Listed(s), refs, i);
    OrphanIff(r, s, refs, b);
    OrphansOf(r, Orphans(r, s, refs), b);
  }

  lemma StrayFreeGivesExact(r: string, ns: string, s: State, refs: seq<Ref>)
    requires Synced(r, ns, s, refs).Some? && OwnCredentials(r, s) && StrayFree(r, s, refs)
    ensures Exact(r, Synced(r, ns, s, refs).value, refs)
  {
    var t := Synced(r, ns, s, refs).value;
    SyncMakesRoutesExact(r, ns, s, refs);
    forall b ensures FilterName(r, b) in t.filters <==> Named(refs, b) { AfterSync(r, ns, s, refs, b); }
    forall i | 0 <= i < |refs|
      ensures FilterName(r, refs[i].name) in t.filters
              && t.filters[FilterName(r, refs[i].name)] == FilterFor(r, refs[i])
    {
      AfterSyncRef(r, ns, s, refs, i);
    }
    forall b ensures SecretName(r, b) in t.secrets <==> Wanted(refs, b) { SecretIffWanted(r, ns, s, refs, b); }
  }

  lemma SecretIffWanted(r: string, ns: string, s: State, refs: seq<Ref>, b: string)
    requires Synced(r, ns, s, refs).Some? && OwnCredentials(r, s) && StrayFree(r, s, refs)
    ensures SecretName(r, b) in Synced(r, ns, s, refs).value.secrets <==> Wanted(refs, b)
  {
    AfterSync(r, ns, s, refs, b);
    if i :| 0 <= i < |refs| && refs[i].name == b {
      AfterSyncRef(r, ns, s, refs, i);
      SyncedNamesDistinct(r, ns, s, Listed(s), refs);
    }
  }

  lemma ExactNeedsStrayFree(r: string, ns: string, s: State, refs: seq<Ref>)
    requires Synced(r, ns, s, refs).Some? && OwnCredentials(r, s) && Exact(r, Synced(r, ns, s, refs).value, refs)
    ensures StrayFree(r, s, refs)
  {
    var t := Synced(r, ns, s, refs).value;
    forall b | !Named(refs, b)
      ensures FilterName(r, b) in s.filters ==> RouteName(r, b) in Listed(s)
      ensures SecretName(r, b) in s.secrets ==> RouteName(r, b) in Listed(s)
    {
      AfterSync(r, ns, s, refs, b);
      assert !Wanted(refs, b);
    }
    SyncedNamesDistinct(r, ns, s, Listed(s), refs);
    forall i | 0 <= i < |refs| && !refs[i].WantsSecret() ensures !KeepsStray(r, s, refs[i].name) {
      AfterSyncRef(r, ns, s, refs, i);
      assert !Wanted(refs, refs[i].name);
    }
  }

  /** Exactly when a completed sync leaves exactly the right resources: when nothing was out of its
      reach before. */
  lemma ExactIffStrayFree(r: string, ns: string, s: State, refs: seq<Ref>)
    requires Synced(r, ns, s, refs).Some? && OwnCredentials(r, s)
    ensures Exact(r, Synced(r, ns, s, refs).value, refs) <==> StrayFree(r, s, refs)
  {
    if StrayFree(r, s, refs) {
      StrayFreeGivesExact(r, ns, s, refs);
    }
    if Exact(r, Synced(r, ns, s, refs).value, refs) {
      ExactNeedsStrayFree(r, ns, s, refs);
    }
  }

  /** An exact state is stray-free for every next list of references. */
  lemma ExactIsStrayFree(r: string, s: State, refs: seq<Ref>, next: seq<Ref>)
    requires Exact(r, s, refs)
    ensures OwnCredentials(r, s) && StrayFree(r, s, next)
  {
    forall b ensures FilterName(r, b) in s.filters ==> s.filters[FilterName(r, b)].cred in {"", SecretName(r, b)} {
      if FilterName(r, b) in s.filters {
        var i :| 0 <= i < |refs| && refs[i].name == b;
      }
    }
    forall b ensures Named(refs, b) ==> RouteName(r, b) in Listed(s) { RouteNameIn(r, refs, b); }
    forall b
      ensures SecretName(r, b) in s.secrets ==>
                Named(refs, b) && PreviousCred(s.filters, FilterName(r, b)) == SecretName(r, b)
    {
      if SecretName(r, b) in s.secrets {
        var i :| 0 <= i < |refs| && refs[i].name == b && refs[i].WantsSecret();
        assert s.filters[FilterName(r, refs[i].name)] == FilterFor(r, refs[i]);
      }
    }
  }

  /* ---- Runs of edits and completed syncs ---- */

  /** The user may change anything between syncs except the route's own resources. */
  ghost predicate SameOwn(r: string, a: State, b: State) {
    && Listed(a) == Listed(b)
    && (forall n :: n in Listed(a) ==> a.routes[n] == b.routes[n])
    && (forall x :: (FilterName(r, x) in a.filters <==> FilterName(r, x) in b.filters)
                    && (FilterName(r, x) in a.filters ==> a.filters[FilterName(r, x)] == b.filters[FilterName(r, x)]))
    && (forall x :: SecretName(r, x) in a.secrets <==> SecretName(r, x) in b.secrets)
  }

  /** A state before a sync and the references it is synced to. */
  datatype Round = Round(before: State, refs: seq<Ref>)

  ghost predicate IsRun(r: string, ns: string, rounds: seq<Round>) {
    && (forall i :: 0 <= i < |rounds| ==> Synced(r, ns, rounds[i].before, rounds[i].refs).Some?)
    && (forall i :: 0 <= i < |rounds| - 1 ==>
          SameOwn(r, Synced(r, ns, rounds[i].before, rounds[i].refs).value, rounds[i + 1].before))
  }

  lemma SameOwnExact(r: string, a: State, b: State, refs: seq<Ref>)
    requires SameOwn(r, a, b) && Exact(r, a, refs)
    ensures Exact(r, b, refs)
  {
    assert forall i :: 0 <= i < |refs| ==> RouteName(r, refs[i].name) in RouteNames(r, refs);
  }

  /** In every run that starts without resources of the route, after every completed sync they are
      exactly those of the references then current, whatever was edited in between. */
  lemma {:induction false} RunsStayExact(r: string, ns: string, rounds: seq<Round>, i: nat)
    requires IsRun(r, ns, rounds) && i < |rounds| && Exact(r, rounds[0].before, [])
    ensures Exact(r, Synced(r, ns, rounds[i].before, rounds[i].refs).value, rounds[i].refs)
  {
    var before, refs := rounds[i].before, rounds[i].refs;
    if i == 0 {
      ExactIsStrayFree(r, before, [], refs);
    } else {
      RunsStayExact(r, ns, rounds, i - 1);
      SameOwnExact(r, Synced(r, ns, rounds[i - 1].before, rounds[i - 1].refs).value, before, rounds[i - 1].refs);
      ExactIsStrayFree(r, before, rounds[i - 1].refs, refs);
    }
    StrayFreeGivesExact(r, ns, before, refs);
  }

  /* ---- The credential itself ---- */

  /** Credential Secrets hold no API key: one found after the loop was there before it, unchanged. */
  lemma {:induction false} KeysFrom(r: string, ns: string, s: State, listed: set<string>, refs: seq<Ref>, name: string)
    requires SyncRefs(r, ns, s, listed, refs).Some?
    ensures var t := SyncRefs(r, ns, s, listed, refs).value;
            name in t.secrets && API_KEY in t.secrets[name] ==> name in s.secrets && s.secrets[name] == t.secrets[name]
    decreases |refs|
  {
    if refs != [] {
      var front := refs[..|refs| - 1];
      KeysFrom(r, ns, s, listed, front, name);
      KeysFromRef(r, SyncRefs(r, ns, s, listed, front).value.secrets, refs[|refs| - 1], name);
    }
  }

  lemma KeysFromRef(r: string, secrets: map<string, Secret>, ref: Ref, name: string)
    requires Credentials(r, secrets, ref).Some?
    ensures var after := Credentials(r, secrets, ref).value;
            name in after && API_KEY in after[name] ==> name in secrets && secrets[name] == after[name]
  {
  }

  lemma {:induction false} RefCredential(r: string, ns: string, s: State, listed: set<string>, refs: seq<Ref>, i: nat)
    requires SyncRefs(r, ns, s, listed, refs).Some? && OwnCredentials(r, s) && i < |refs| && refs[i].WantsSecret()
    ensures var t, name, k := SyncRefs(r, ns, s, listed, refs).value, SecretName(r, refs[i].name), refs[i].apiKey.value;
            && ReadKey(s.secrets, k).Some? && name in t.secrets
            && Stored(t.secrets[name]) == CredentialValue(k, ReadKey(s.secrets, k).value)
    decreases |refs|
  {
    var front, ref := refs[..|refs| - 1], refs[|refs| - 1];
    if i < |refs| - 1 {
      SyncedNamesDistinct(r, ns, s, listed, refs);
      NamesInjective(r, refs[i].name, ref.name);
      LastSecret(r, ns, s, listed, refs, SecretName(r, refs[i].name));
      RefCredential(r, ns, s, listed, front, i);
    } else {
      KeysFrom(r, ns, s, listed, front, ref.apiKey.value.secretRef.value);
      PreviousUnchanged(r, ns, s, listed, refs);
    }
  }

  /** After a completed sync every wanted Secret holds the referenced key as it was when the sync
      began, after "Bearer " for the default header and verbatim for any other. */
  lemma CredentialIsCurrent(r: string, ns: string, s: State, refs: seq<Ref>, i: nat)
    requires Synced(r, ns, s, refs).Some? && OwnCredentials(r, s) && i < |refs| && refs[i].WantsSecret()
    ensures var t, k := Synced(r, ns, s, refs).value, refs[i].apiKey.value;
            var name := "ai-eg-mcp-cred-" + r + "-" + refs[i].name;
            && k.secretRef.value in s.secrets && "apiKey" in s.secrets[k.secretRef.value] && name in t.secrets
            && (if "credential" in t.secrets[name] then t.secrets[name]["credential"] else "")
               == (if k.header.None? || k.header.value == "Authorization" then "Bearer " else "")
                  + s.secrets[k.secretRef.value]["apiKey"]
  {
    RefCredential(r, ns, s, Listed(s), refs, i);
    OrphanIff(r, s, refs, refs[i].name);
    OrphansOf(r, Orphans(r, s, refs), refs[i].name);
  }

  /* ---- Spelled out ---- */

  /** A reference is refused exactly when it names another namespace, when it needs a key that is
      neither given inline nor found in the referenced Secret, or when its HTTPRoute's name is
      taken by one that is not listed. */
  lemma RefusedIff(r: string, ns: string, s: State, listed: set<string>, ref: Ref)
    ensures SyncRef(r, ns, s, listed, ref).None? <==>
              || (ref.ns.Some? && ref.ns.value != ns)
              || (ref.apiKey.Some? && NeedsKey(ref.apiKey.value) && !KeyReadable(s, ref.apiKey.value))
              || ("ai-eg-mcp-br-" + r + "-" + ref.name in s.routes && "ai-eg-mcp-br-" + r + "-" + ref.name !in listed)
  {
  }

  /** The key is sent in the query, or injected from a Secret; an inline key for a header is copied. */
  predicate NeedsKey(k: ApiKey) { k.queryParam.Some? || (k.inlineKey.None? && k.secretRef.Some?) }

  predicate KeyReadable(s: State, k: ApiKey) {
    || (k.inlineKey.Some? && k.inlineKey.value != "")
    || (k.secretRef.Some? && k.secretRef.value in s.secrets && "apiKey" in s.secrets[k.secretRef.value])
  }

  /** What a completed sync leaves for each reference: an HTTPRoute of its own, and a filter that
      injects the backend's credential Secret into the configured header exactly when the key is
      a Secret's and goes into a header. */
  lemma SyncedObjects(r: string, ns: string, s: State, refs: seq<Ref>, i: nat)
    requires Synced(r, ns, s, refs).Some? && OwnCredentials(r, s) && i < |refs|
    ensures var t, b := Synced(r, ns, s, refs).value, refs[i].name;
            var route, filter := "ai-eg-mcp-br-" + r + "-" + b, "ai-eg-mcp-brf-" + r + "-" + b;
            && route in t.routes && t.routes[route].owned && t.routes[route].ref == refs[i]
            && filter in t.filters
            && (if refs[i].apiKey.Some? && refs[i].apiKey.value.queryParam.None? && refs[i].apiKey.value.inlineKey.None?
                   && refs[i].apiKey.value.secretRef.Some?
                then t.filters[filter] == Filter("ai-eg-mcp-cred-" + r + "-" + b, refs[i].apiKey.value.header)
                else t.filters[filter] == Filter("", None))
  {
    SyncMakesRoutesExact(r, ns, s, refs);
    AfterSyncRef(r, ns, s, refs, i);
  }

  /* ---- Interrupted syncs ---- */

  /** One reference stopped after `step` of its calls: the credential Secret, the removal of the one
      it supersedes, the filter. */
  function RefStep(r: string, s: State, ref: Ref, step: nat): Option<State> {
    if step == 0 then Some(s) else
      var secrets, fname := Credentials(r, s.secrets, ref), FilterName(r, ref.name);
      if secrets.None? then None
      else if step == 1 then Some(s.(secrets := secrets.value))
      else
        var dropped := DropPrevious(secrets.value, PreviousCred(s.filters, fname), CredOf(r, ref));
        if step == 2 then Some(s.(secrets := dropped))
        else Some(s.(secrets := dropped, filters := s.filters[fname := FilterFor(r, ref)]))
  }

  /** One orphan stopped after `step` of its calls: the HTTPRoute, the filter, the Secret. */
  function OrphanStep(s: State, n: string, step: nat): State {
    State(if step >= 1 then s.routes - {n} else s.routes,
          if step >= 2 then s.filters - {FilterOf(n)} else s.filters,
          if step >= 3 then s.secrets - {SecretOf(n)} else s.secrets)
  }

  /** Where a sync stops: in reference `i`, or in orphan `n` after those in `gone`. */
  datatype Stop = AtRef(i: nat, step: nat) | AtOrphan(gone: set<string>, n: string, step: nat)

  /** The state a sync of `refs` from `s` leaves when it stops there, None if it cannot. */
  function StoppedAt(r: string, ns: string, s: State, refs: seq<Ref>, stop: Stop): Option<State> {
    match stop
    case AtRef(i, step) =>
      if i > |refs| || (i == |refs| && step > 0) then None else
        var t := SyncRefs(r, ns, s, Listed(s), refs[..i]);
        if t.None? || step == 0 then t else RefStep(r, t.value, refs[i], step)
    case AtOrphan(gone, n, step) =>
      var t := SyncRefs(r, ns, s, Listed(s), refs);
      if t.None? || !(gone <= Orphans(r, s, refs)) || n !in Orphans(r, s, refs) - gone || step > 3 then None
      else Some(OrphanStep(WithoutOrphans(t.value, gone), n, step))
  }

  lemma OwnAfter(r: string, ns: string, s: State, listed: set<string>, refs: seq<Ref>)
    requires SyncRefs(r, ns, s, listed, refs).Some? && OwnCredentials(r, s)
    ensures OwnCredentials(r, SyncRefs(r, ns, s, listed, refs).value)
  {
    var t := SyncRefs(r, ns, s, listed, refs).value;
    forall b | FilterName(r, b) in t.filters ensures t.filters[FilterName(r, b)].cred in {"", SecretName(r, b)} {
      FilterAfter(r, ns, s, listed, refs, b);
      if i :| 0 <= i < |refs| && refs[i].name == b {
        RefContents(r, ns, s, listed, refs, i);
      }
    }
  }

  lemma ListedGrows(r: string, ns: string, s: State, listed: set<string>, refs: seq<Ref>)
    requires SyncRefs(r, ns, s, listed, refs).Some?
    ensures Listed(s) <= Listed(SyncRefs(r, ns, s, listed, refs).value)
  {
    var t := SyncRefs(r, ns, s, listed, refs).value;
    RoutesAfter(r, ns, s, listed, refs);
    forall n | n in Listed(s) ensures n in Listed(t) {
      if n in RouteNames(r, refs) {
        var i :| 0 <= i < |refs| && n == RouteName(r, refs[i].name);
        RefContents(r, ns, s, listed, refs, i);
      }
    }
  }

  /** A backend that is not among the references keeps filter and Secret through the loop. */
  lemma Untouched(r: string, ns: string, s: State, listed: set<string>, refs: seq<Ref>, b: string)
    requires SyncRefs(r, ns, s, listed, refs).Some? && OwnCredentials(r, s) && !Named(refs, b)
    ensures var t := SyncRefs(r, ns, s, listed, refs).value;
            && (FilterName(r, b) in t.filters <==> FilterName(r, b) in s.filters)
            && PreviousCred(t.filters, FilterName(r, b)) == PreviousCred(s.filters, FilterName(r, b))
            && (SecretName(r, b) in t.secrets <==> SecretName(r, b) in s.secrets)
  {
    FilterAfter(r, ns, s, listed, refs, b);
    forall i | 0 <= i < |refs| ensures SecretName(r, b) != SecretName(r, refs[i].name) {
      NamesInjective(r, b, refs[i].name);
    }
    OtherSecrets(r, ns, s, listed, refs, SecretName(r, b));
  }

  lemma NamedFront(refs: seq<Ref>, i: nat, b: string)
    requires i <= |refs|
    ensures Named(refs[..i], b) ==> Named(refs, b)
    ensures DistinctNames(refs) ==> forall j :: i <= j < |refs| ==> !Named(refs[..i], refs[j].name)
  {
    assert forall k :: 0 <= k < i ==> refs[..i][k] == refs[k];
  }

  /** Syncing the first references makes no strays. */
  lemma FrontStrayFree(r: string, ns: string, s: State, refs: seq<Ref>, i: nat)
    requires i <= |refs| && SyncRefs(r, ns, s, Listed(s), refs[..i]).Some? && DistinctNames(refs)
    requires OwnCredentials(r, s) && StrayFree(r, s, refs)
    ensures var t := SyncRefs(r, ns, s, Listed(s), refs[..i]).value; OwnCredentials(r, t) && StrayFree(r, t, refs)
  {
    var front, listed := refs[..i], Listed(s);
    var t := SyncRefs(r, ns, s, listed, front).value;
    OwnAfter(r, ns, s, listed, front);
    ListedGrows(r, ns, s, listed, front);
    forall b | !Named(refs, b)
      ensures FilterName(r, b) in t.filters ==> RouteName(r, b) in Listed(t)
      ensures SecretName(r, b) in t.secrets ==> RouteName(r, b) in Listed(t)
    {
      NamedFront(refs, i, b);
      Untouched(r, ns, s, listed, front, b);
    }
    forall j | 0 <= j < |refs| && !refs[j].WantsSecret() ensures !KeepsStray(r, t, refs[j].name) {
      if j < i {
        assert front[j] == refs[j];
        RefSecret(r, ns, s, listed, front, j);
      } else {
        NamedFront(refs, i, refs[j].name);
        Untouched(r, ns, s, listed, front, refs[j].name);
      }
    }
  }

  /** The calls for one reference touch its own filter and Secret only. */
  lemma RefStepOther(r: string, s: State, ref: Ref, step: nat, b: string)
    requires OwnCredentials(r, s) && RefStep(r, s, ref, step).Some? && b != ref.name
    ensures var t := RefStep(r, s, ref, step).value;
            && (FilterName(r, b) in t.filters <==> FilterName(r, b) in s.filters)
            && PreviousCred(t.filters, FilterName(r, b)) == PreviousCred(s.filters, FilterName(r, b))
            && (SecretName(r, b) in t.secrets <==> SecretName(r, b) in s.secrets)
            && t.routes == s.routes
  {
    NamesInjective(r, b, ref.name);
  }

  /** And leave no stray Secret of the reference itself. */
  lemma RefStepOwn(r: string, s: State, ref: Ref, step: nat)
    requires OwnCredentials(r, s) && RefStep(r, s, ref, step).Some? && !ref.WantsSecret() && !KeepsStray(r, s, ref.name)
    ensures !KeepsStray(r, RefStep(r, s, ref, step).value, ref.name)
  {
  }

  lemma RefStepOwnCredentials(r: string, s: State, ref: Ref, step: nat)
    requires OwnCredentials(r, s) && RefStep(r, s, ref, step).Some?
    ensures OwnCredentials(r, RefStep(r, s, ref, step).value)
  {
    var t := RefStep(r, s, ref, step).value;
    forall b | FilterName(r, b) in t.filters ensures t.filters[FilterName(r, b)].cred in {"", SecretName(r, b)} {
      NamesInjective(r, b, ref.name);
    }
  }

  lemma RefStepStrayFree(r: string, s: State, refs: seq<Ref>, i: nat, step: nat)
    requires i < |refs| && DistinctNames(refs) && OwnCredentials(r, s) && StrayFree(r, s, refs)
    requires RefStep(r, s, refs[i], step).Some?
    ensures var t := RefStep(r, s, refs[i], step).value; OwnCredentials(r, t) && StrayFree(r, t, refs)
  {
    var t := RefStep(r, s, refs[i], step).value;
    RefStepOwnCredentials(r, s, refs[i], step);
    forall b | !Named(refs, b)
      ensures FilterName(r, b) in t.filters ==> RouteName(r, b) in Listed(t)
      ensures SecretName(r, b) in t.secrets ==> RouteName(r, b) in Listed(t)
    {
      assert b != refs[i].name;
      RefStepOther(r, s, refs[i], step, b);
    }
    forall j | 0 <= j < |refs| && !refs[j].WantsSecret() ensures !KeepsStray(r, t, refs[j].name) {
      if j == i {
        RefStepOwn(r, s, refs[i], step);
      } else {
        RefStepOther(r, s, refs[i], step, refs[j].name);
      }
    }
  }

  /** Which of a backend's objects are left when the orphan pass has dealt with `gone` and stopped in
      orphan `n`. */
  lemma OrphanStepLeaves(r: string, s: State, gone: set<string>, n: string, step: nat, b: string)
    requires BR <= n && forall x :: x in gone ==> BR <= x
    ensures var m, name := OrphanStep(WithoutOrphans(s, gone), n, step), RouteName(r, b);
            && (name in Listed(m) <==> name in Listed(s) && name !in gone && !(step >= 1 && n == name))
            && (FilterName(r, b) in m.filters <==>
                  FilterName(r, b) in s.filters && name !in gone && !(step >= 2 && n == name))
            && (SecretName(r, b) in m.secrets <==>
                  SecretName(r, b) in s.secrets && name !in gone && !(step >= 3 && n == name))
            && (FilterName(r, b) in m.filters ==> m.filters[FilterName(r, b)] == s.filters[FilterName(r, b)])
  {
    OrphansOf(r, gone, b);
    OrphanNames(r, b, n);
  }

  /** What the interrupted removal of orphan `n` leaves behind its HTTPRoute. */
  predicate LeftBehind(m: State, n: string) { FilterOf(n) in m.filters || SecretOf(n) in m.secrets }

  /** An interrupted orphan pass leaves a stray exactly when the HTTPRoute of the orphan it stopped
      in is gone and its filter or Secret is not. */
  lemma OrphanStepStrayFree(r: string, s: State, refs: seq<Ref>, gone: set<string>, b: string, step: nat)
    requires OwnCredentials(r, s) && StrayFree(r, s, refs) && !Named(refs, b)
    requires forall x :: x in gone ==> BR <= x && x !in RouteNames(r, refs)
    ensures var n := RouteName(r, b); var m := OrphanStep(WithoutOrphans(s, gone), n, step);
            && OwnCredentials(r, m)
            && (StrayFree(r, m, refs) <==> !(step >= 1 && LeftBehind(m, n)))
  {
    var n := RouteName(r, b);
    var m := OrphanStep(WithoutOrphans(s, gone), n, step);
    OrphanNames(r, b, n);
    forall c
      ensures (FilterName(r, c) in m.filters ==> m.filters[FilterName(r, c)].cred in {"", SecretName(r, c)})
      ensures !Named(refs, c) && c != b ==>
                && (FilterName(r, c) in m.filters ==> RouteName(r, c) in Listed(m))
                && (SecretName(r, c) in m.secrets ==> RouteName(r, c) in Listed(m))
    {
      OrphanStepLeaves(r, s, gone, n, step, c);
      NamesInjective(r, b, c);
    }
    forall j | 0 <= j < |refs| && !refs[j].WantsSecret() ensures !KeepsStray(r, m, refs[j].name) {
      OrphanStepLeaves(r, s, gone, n, step, refs[j].name);
      NamesInjective(r, b, refs[j].name);
      assert RouteName(r, refs[j].name) in RouteNames(r, refs);
    }
    OrphanStepLeaves(r, s, gone, n, step, b);
  }

  ghost predicate OnlyOurs(r: string, s: State) { forall n :: n in Listed(s) ==> BR + r + "-" <= n }

  /** Of the syncs that can be interrupted, a retry of the same references heals all but one kind:
      those stopped in an orphan whose HTTPRoute is gone and whose filter or Secret is not. */
  lemma RetryHealsIff(r: string, ns: string, s: State, refs: seq<Ref>, stop: Stop)
    requires OnlyOurs(r, s) && OwnCredentials(r, s) && StrayFree(r, s, refs) && StoppedAt(r, ns, s, refs, stop).Some?
    requires Synced(r, ns, StoppedAt(r, ns, s, refs, stop).value, refs).Some?
    ensures var m := StoppedAt(r, ns, s, refs, stop).value;
            Exact(r, Synced(r, ns, m, refs).value, refs) <==>
              !(stop.AtOrphan? && stop.step >= 1 && LeftBehind(m, stop.n))
  {
    var m := StoppedAt(r, ns, s, refs, stop).value;
    SyncedNamesDistinct(r, ns, m, Listed(m), refs);
    match stop {
      case AtRef(i, step) =>
        FrontStrayFree(r, ns, s, refs, i);
        if step > 0 {
          RefStepStrayFree(r, SyncRefs(r, ns, s, Listed(s), refs[..i]).value, refs, i, step);
        }
      case AtOrphan(gone, n, step) =>
        assert refs[..|refs|] == refs;
        FrontStrayFree(r, ns, s, refs, |refs|);
        var b := n[|BR + r + "-"|..];
        assert n == RouteName(r, b);
        RouteNameIn(r, refs, b);
        OrphanStepStrayFree(r, SyncRefs(r, ns, s, Listed(s), refs).value, refs, gone, b, step);
    }
    ExactIffStrayFree(r, ns, m, refs);
  }

  /** Seen from an exact state: the retry fails to heal exactly when the sync stopped between the
      HTTPRoute and the filter of an orphan, or between its filter and the Secret it had. */
  lemma RetryFromExactIff(r: string, ns: string, s: State, prev: seq<Ref>, refs: seq<Ref>, stop: Stop)
    requires Exact(r, s, prev) && StoppedAt(r, ns, s, refs, stop).Some?
    requires Synced(r, ns, StoppedAt(r, ns, s, refs, stop).value, refs).Some?
    ensures Exact(r, Synced(r, ns, StoppedAt(r, ns, s, refs, stop).value, refs).value, refs) <==>
              !(stop.AtOrphan? && (stop.step == 1 || (stop.step == 2 && SecretOf(stop.n) in s.secrets)))
  {
    ExactIsStrayFree(r, s, prev, refs);
    ExactIsOurs(r, s, prev);
    RetryHealsIff(r, ns, s, refs, stop);
    if stop.AtOrphan? {
      OrphanFromExact(r, ns, s, prev, refs, stop.gone, stop.n, stop.step);
    }
  }

  lemma ExactIsOurs(r: string, s: State, refs: seq<Ref>)
    requires Exact(r, s, refs)
    ensures OnlyOurs(r, s)
  {
    forall n | n in Listed(s) ensures BR + r + "-" <= n {
      var i :| 0 <= i < |refs| && n == RouteName(r, refs[i].name);
    }
  }

  /** In an exact state every listed HTTPRoute has its filter; so what is left is plain. */
  lemma OrphanFromExact(r: string, ns: string, s: State, prev: seq<Ref>, refs: seq<Ref>, gone: set<string>, n: string,
                        step: nat)
    requires Exact(r, s, prev) && OwnCredentials(r, s) && SyncRefs(r, ns, s, Listed(s), refs).Some?
    requires gone <= Orphans(r, s, refs) && n in Orphans(r, s, refs) - gone && step <= 3
    ensures var m := OrphanStep(WithoutOrphans(SyncRefs(r, ns, s, Listed(s), refs).value, gone), n, step);
            && (FilterOf(n) in m.filters <==> step < 2)
            && (SecretOf(n) in m.secrets <==> step < 3 && SecretOf(n) in s.secrets)
  {
    var t := SyncRefs(r, ns, s, Listed(s), refs).value;
    var i :| 0 <= i < |prev| && n == RouteName(r, prev[i].name);
    var b := prev[i].name;
    OrphanNames(r, b, n);
    RouteNameIn(r, refs, b);
    Untouched(r, ns, s, Listed(s), refs, b);
    OrphanStepLeaves(r, t, gone, n, step, b);
  }

  /* ---- Any next list after an interruption ---- */

  /** Nothing of backend `b` is out of reach of a sync to `next`. */
  ghost predicate InReach(r: string, s: State, next: seq<Ref>, b: string) {
    if !Named(next, b)
    then FilterName(r, b) in s.filters || SecretName(r, b) in s.secrets ==> RouteName(r, b) in Listed(s)
    else forall k :: 0 <= k < |next| && next[k].name == b && !next[k].WantsSecret() ==> !KeepsStray(r, s, b)
  }

  lemma StrayFreeIff(r: string, s: State, next: seq<Ref>)
    ensures StrayFree(r, s, next) <==> forall b :: InReach(r, s, next, b)
  {
    if forall b :: InReach(r, s, next, b) {
      forall k | 0 <= k < |next| && !next[k].WantsSecret() ensures !KeepsStray(r, s, next[k].name) {
        assert InReach(r, s, next, next[k].name);
      }
      forall b | !Named(next, b)
        ensures FilterName(r, b) in s.filters ==> RouteName(r, b) in Listed(s)
        ensures SecretName(r, b) in s.secrets ==> RouteName(r, b) in Listed(s)
      {
        assert InReach(r, s, next, b);
      }
    }
    if StrayFree(r, s, next) {
      forall b ensures InReach(r, s, next, b) {
      }
    }
  }

  /** The same objects of `b`, as far as reach goes. */
  ghost predicate SameReach(r: string, s: State, t: State, b: string) {
    && (FilterName(r, b) in t.filters <==> FilterName(r, b) in s.filters)
    && PreviousCred(t.filters, FilterName(r, b)) == PreviousCred(s.filters, FilterName(r, b))
    && (SecretName(r, b) in t.secrets <==> SecretName(r, b) in s.secrets)
    && (RouteName(r, b) in Listed(s) ==> RouteName(r, b) in Listed(t))
  }

  /** References that went through leave everything in reach of every next list that had it before. */
  lemma FrontInReach(r: string, ns: string, s: State, refs: seq<Ref>, next: seq<Ref>, b: string)
    requires SyncRefs(r, ns, s, Listed(s), refs).Some? && OwnCredentials(r, s) && InReach(r, s, next, b)
    ensures InReach(r, SyncRefs(r, ns, s, Listed(s), refs).value, next, b)
  {
    var t := SyncRefs(r, ns, s, Listed(s), refs).value;
    ListedGrows(r, ns, s, Listed(s), refs);
    if i :| 0 <= i < |refs| && refs[i].name == b {
      RefContents(r, ns, s, Listed(s), refs, i);
      RefSecret(r, ns, s, Listed(s), refs, i);
      OrphanNames(r, b, RouteName(r, b));
    } else {
      Untouched(r, ns, s, Listed(s), refs, b);
    }
  }

  /** The backend whose calls the stop cuts in two. */
  ghost predicate StopsIn(r: string, refs: seq<Ref>, stop: Stop, b: string) {
    match stop
    case AtRef(i, step) => step > 0 && i < |refs| && refs[i].name == b
    case AtOrphan(_, n, _) => n == RouteName(r, b)
  }

  /** Everything of the other backends stays in reach. */
  lemma OthersInReach(r: string, ns: string, s: State, refs: seq<Ref>, stop: Stop, next: seq<Ref>, b: string)
    requires OnlyOurs(r, s) && OwnCredentials(r, s) && StoppedAt(r, ns, s, refs, stop).Some?
    requires InReach(r, s, next, b) && !StopsIn(r, refs, stop, b)
    ensures InReach(r, StoppedAt(r, ns, s, refs, stop).value, next, b)
  {
    var m := StoppedAt(r, ns, s, refs, stop).value;
    match stop {
      case AtRef(i, step) =>
        var t := SyncRefs(r, ns, s, Listed(s), refs[..i]).value;
        FrontInReach(r, ns, s, refs[..i], next, b);
        if step > 0 {
          OwnAfter(r, ns, s, Listed(s), refs[..i]);
          RefStepOther(r, t, refs[i], step, b);
          assert SameReach(r, t, m, b);
        }
      case AtOrphan(gone, n, step) =>
        FrontInReach(r, ns, s, refs, next, b);
        OrphanStepLeaves(r, SyncRefs(r, ns, s, Listed(s), refs).value, gone, n, step, b);
    }
  }

  lemma StoppedOwn(r: string, ns: string, s: State, refs: seq<Ref>, stop: Stop)
    requires OnlyOurs(r, s) && OwnCredentials(r, s) && StoppedAt(r, ns, s, refs, stop).Some?
    ensures OwnCredentials(r, StoppedAt(r, ns, s, refs, stop).value)
  {
    var m := StoppedAt(r, ns, s, refs, stop).value;
    match stop {
      case AtRef(i, step) =>
        OwnAfter(r, ns, s, Listed(s), refs[..i]);
        if step > 0 {
          RefStepOwnCredentials(r, SyncRefs(r, ns, s, Listed(s), refs[..i]).value, refs[i], step);
        }
      case AtOrphan(gone, n, step) =>
        var t := SyncRefs(r, ns, s, Listed(s), refs).value;
        OwnAfter(r, ns, s, Listed(s), refs);
        forall b | FilterName(r, b) in m.filters ensures m.filters[FilterName(r, b)].cred in {"", SecretName(r, b)} {
          OrphanStepLeaves(r, t, gone, n, step, b);
        }
    }
  }

  /** After a sync of `refs` stopped anywhere, a completed sync of any list whatsoever ends exact if and
      only if nothing of the one backend it stopped in is out of reach. */
  lemma NextSyncIff(r: string, ns: string, s: State, refs: seq<Ref>, stop: Stop, next: seq<Ref>)
    requires OnlyOurs(r, s) && OwnCredentials(r, s) && StrayFree(r, s, next) && StoppedAt(r, ns, s, refs, stop).Some?
    requires Synced(r, ns, StoppedAt(r, ns, s, refs, stop).value, next).Some?
    ensures var m := StoppedAt(r, ns, s, refs, stop).value;
            Exact(r, Synced(r, ns, m, next).value, next) <==>
              forall b :: StopsIn(r, refs, stop, b) ==> InReach(r, m, next, b)
  {
    var m := StoppedAt(r, ns, s, refs, stop).value;
    StoppedOwn(r, ns, s, refs, stop);
    ExactIffStrayFree(r, ns, m, next);
    StrayFreeIff(r, s, next);
    StrayFreeIff(r, m, next);
    forall b | !StopsIn(r, refs, stop, b) ensures InReach(r, m, next, b) {
      OthersInReach(r, ns, s, refs, stop, next, b);
    }
  }

  lemma NothingToSync(r: string, ns: string, m: State)
    requires Listed(m) == {}
    ensures Synced(r, ns, m, []) == Some(m)
  {
    assert Orphans(r, m, []) == {};
    assert WithoutOrphans(m, {}) == m;
  }

  /** An interrupted sync that a retry would have healed is out of reach once the list changes: a
      first sync stops after writing a backend's credential, the user drops the backend, and the
      Secret stays, for this and every later sync. */
  lemma DroppedBackendLeaks(r: string, ns: string, ref: Ref, key: string)
    requires ref.WantsSecret() && !(CRED + r + "-" <= ref.apiKey.value.secretRef.value)
    ensures var s := State(map[], map[], map[ref.apiKey.value.secretRef.value := map[API_KEY := key]]);
            var m := StoppedAt(r, ns, s, [ref], AtRef(0, 1));
            && Exact(r, s, []) && m.Some? && SecretName(r, ref.name) in m.value.secrets
            && Synced(r, ns, m.value, []) == m && !Exact(r, m.value, [])
  {
    var source, name := ref.apiKey.value.secretRef.value, SecretName(r, ref.name);
    var s := State(map[], map[], map[source := map[API_KEY := key]]);
    forall b ensures SecretName(r, b) != source { assert CRED + r + "-" <= SecretName(r, b); }
    assert [ref][..0] == [];
    assert ReadKey(s.secrets, ref.apiKey.value) == Some(key);
    var m := s.(secrets := PutCredential(s.secrets, name, CredentialValue(ref.apiKey.value, key)));
    assert StoppedAt(r, ns, s, [ref], AtRef(0, 1)) == Some(m);
    NothingToSync(r, ns, m);
    assert name in m.secrets && !Wanted([], ref.name);
  }

  /** And one that no retry heals: an orphan pass that stops after the HTTPRoute leaves the filter,
      and the Secret if there was one, though the references do not change at all. */
  lemma OrphanPassLeaks(r: string, ns: string, s: State, ref: Ref)
    requires Exact(r, s, [ref])
    ensures var m := StoppedAt(r, ns, s, [], AtOrphan({}, RouteName(r, ref.name), 1));
            && m.Some? && FilterName(r, ref.name) in m.value.filters
            && Synced(r, ns, m.value, []) == m && !Exact(r, m.value, [])
  {
    var n := RouteName(r, ref.name);
    assert n == RouteName(r, [ref][0].name) && n in RouteNames(r, [ref]);
    assert Orphans(r, s, []) == {n};
    var m := OrphanStep(WithoutOrphans(s, {}), n, 1);
    assert WithoutOrphans(s, {}) == s;
    NothingToSync(r, ns, m);
    assert FilterName(r, [ref][0].name) in m.filters && !Named([], ref.name);
  }

  /* ---- The controller ---- */

  datatype Outcome = Done | Rejected | ApiError

  predicate Ours(prefix: string, r: string, name: string) { prefix + r + "-" <= name }

  function At<T>(m: map<string, T>, name: string): Option<T> { if name in m then Some(m[name]) else None }

  /** Everything that does not carry the route's own name is as before. */
  ghost predicate Confined(r: string, a: State, b: State) {
    && (forall n :: !Ours(BR, r, n) ==> At(a.routes, n) == At(b.routes, n))
    && (forall n :: !Ours(BRF, r, n) ==> At(a.filters, n) == At(b.filters, n))
    && (forall n :: !Ours(CRED, r, n) ==> At(a.secrets, n) == At(b.secrets, n))
  }

  /** What every reachable state keeps, failed syncs included. */
  ghost predicate WellFormed(r: string, s: State) {
    OwnCredentials(r, s) && forall n :: n in Listed(s) ==> Ours(BR, r, n)
  }

  lemma OursNamed(r: string, b: string)
    ensures Ours(BR, r, RouteName(r, b)) && Ours(BRF, r, FilterName(r, b)) && Ours(CRED, r, SecretName(r, b))
  {
  }

  lemma OrphanOurs(r: string, n: string)
    requires Ours(BR, r, n)
    ensures BR <= n && Ours(BRF, r, FilterOf(n)) && Ours(CRED, r, SecretOf(n))
  {
    var b := n[|BR + r + "-"|..];
    assert n == RouteName(r, b);
    OrphanNames(r, b, n);
    OursNamed(r, b);
  }

  /* ---- Two MCPRoutes of one namespace ---- */

  lemma PrefixedEqual(prefix: string, r: string, b: string, q: string, c: string)
    ensures prefix + r + "-" + b == prefix + q + "-" + c <==> r + "-" + b == q + "-" + c
  {
    assert prefix + r + "-" + b == prefix + (r + "-" + b) && prefix + q + "-" + c == prefix + (q + "-" + c);
    assert (prefix + (r + "-" + b))[|prefix|..] == r + "-" + b && (prefix + (q + "-" + c))[|prefix|..] == q + "-" + c;
  }

  /** Two backends get the same three names exactly when they are the same backend of the same route,
      or one route's name continues the other's after a dash and the backend names make up for it. */
  lemma NamesClashIff(r: string, b: string, q: string, c: string)
    ensures RouteName(r, b) == RouteName(q, c) <==>
              (r == q && b == c) || CutDifferently(r, b, q, c) || CutDifferently(q, c, r, b)
    ensures FilterName(r, b) == FilterName(q, c) <==> RouteName(r, b) == RouteName(q, c)
    ensures SecretName(r, b) == SecretName(q, c) <==> RouteName(r, b) == RouteName(q, c)
  {
    StemsEqualIff(r, b, q, c);
    PrefixedEqual(BR, r, b, q, c);
    PrefixedEqual(BRF, r, b, q, c);
    PrefixedEqual(CRED, r, b, q, c);
  }

  /** Such names exist, and both routes are valid: "a" with "b-c", and "a-b" with "c". */
  lemma NamesCanClash()
    ensures CutDifferently("a", "b-c", "a-b", "c") && RouteName("a", "b-c") == RouteName("a-b", "c")
  {
    assert "a-b" == "a" + "-" + "b" && "b-c" == "b" + "-" + "c";
  }

  /** No sync of `r`, completed or not, touches an object of another route, as long as neither
      route's name continues the other's after a dash. */
  lemma OtherRoutesUntouched(r: string, q: string, c: string, before: State, after: State)
    requires Confined(r, before, after) && r != q && !(r + "-" <= q) && !(q + "-" <= r)
    ensures At(after.routes, RouteName(q, c)) == At(before.routes, RouteName(q, c))
    ensures At(after.filters, FilterName(q, c)) == At(before.filters, FilterName(q, c))
    ensures At(after.secrets, SecretName(q, c)) == At(before.secrets, SecretName(q, c))
  {
    OursMeans(BR, r, q, c);
    OursMeans(BRF, r, q, c);
    OursMeans(CRED, r, q, c);
  }

  lemma OursMeans(prefix: string, r: string, q: string, c: string)
    ensures Ours(prefix, r, prefix + q + "-" + c) ==> r == q || r + "-" <= q || q + "-" <= r
  {
    var name, stem := prefix + q + "-" + c, q + "-" + c;
    assert name[|prefix|..] == stem;
    if Ours(prefix, r, name) {
      assert (prefix + r + "-")[|prefix|..] == r + "-";
      assert r + "-" == stem[..|r| + 1];
      if |r| < |q| {
        assert stem[..|r| + 1] == q[..|r| + 1];
      } else if |q| < |r| {
        assert (r + "-")[..|q| + 1] == q + "-" == r[..|q| + 1];
      } else {
        assert r == stem[..|r|] == q;
      }
    }
  }

  /** The namespace behind an API in which the n-th call may fail, a mutating one with or without
      effect. */
  class Cluster {
    var state: State
    var calls: nat
    const fails: nat -> bool
    const lost: nat -> bool

    constructor (state: State, fails: nat -> bool, lost: nat -> bool)
      ensures this.state == state && this.fails == fails && this.lost == lost
    {
      this.state, this.calls, this.fails, this.lost := state, 0, fails, lost;
    }

    /** One mutating call: the new state, unless it fails without effect. */
    method Mutate(next: State) returns (ok: bool)
      modifies this
      ensures state == next || (!ok && state == old(state))
      ensures (forall n :: !fails(n)) ==> ok
      ensures ok ==> state == next
    {
      ok := !fails(calls);
      if ok || lost(calls) {
        state := next;
      }
      calls := calls + 1;
    }

    /** One reading call. */
    method Read() returns (ok: bool)
      modifies this`calls
      ensures (forall n :: !fails(n)) ==> ok
    {
      ok := !fails(calls);
      calls := calls + 1;
    }

    /** Credential handling of one reference. */
    method EnsureCredentials(r: string, ref: Ref) returns (o: Outcome)
      modifies this
      ensures o.Done? ==> RefStep(r, old(state), ref, 1) == Some(state)
      ensures !o.Done? ==> state == old(state) || RefStep(r, old(state), ref, 1) == Some(state)
      ensures o.Rejected? ==> Credentials(r, old(state).secrets, ref).None?
      ensures (forall n :: !fails(n)) ==> !o.ApiError?
      ensures WellFormed(r, old(state)) ==> WellFormed(r, state) && Confined(r, old(state), state)
    {
      OursNamed(r, ref.name);
      if ref.apiKey.None? {
        return Done;
      }
      var k := ref.apiKey.value;
      if k.queryParam.None? && (k.inlineKey.Some? || k.secretRef.None?) {
        return Done;
      }
      if k.inlineKey.None? || k.inlineKey.value == "" {
        var ok := Read();
        if !ok {
          return ApiError;
        }
      }
      var key := ReadKey(state.secrets, k);
      if key.None? {
        return Rejected;
      }
      if k.queryParam.Some? {
        return Done;
      }
      var name, value := SecretName(r, ref.name), CredentialValue(k, key.value);
      var ok := Read();
      if !ok {
        return ApiError;
      }
      if name in state.secrets && Stored(state.secrets[name]) == value {
        return Done;
      }
      ok := Mutate(state.(secrets := state.secrets[name := map[CREDENTIAL := value]]));
      o := if ok then Done else ApiError;
    }

    /** The filter, after the Secret it stops injecting has been deleted. */
    method EnsureFilter(r: string, ref: Ref) returns (o: Outcome, ghost dropped: State)
      requires WellFormed(r, state)
      modifies this
      ensures dropped == old(state).(secrets :=
                DropPrevious(old(state).secrets, PreviousCred(old(state).filters, FilterName(r, ref.name)),
                             CredOf(r, ref)))
      ensures !o.Rejected? && ((forall n :: !fails(n)) ==> o.Done?)
      ensures state == old(state) || state == dropped
              || state == dropped.(filters := dropped.filters[FilterName(r, ref.name) := FilterFor(r, ref)])
      ensures o.Done? ==> state == dropped.(filters := dropped.filters[FilterName(r, ref.name) := FilterFor(r, ref)])
      ensures WellFormed(r, state) && Confined(r, old(state), state)
    {
      OursNamed(r, ref.name);
      var fname, cred := FilterName(r, ref.name), CredOf(r, ref);
      var previous := PreviousCred(state.filters, fname);
      dropped := state.(secrets := DropPrevious(state.secrets, previous, cred));
      var ok := Read();
      if !ok {
        return ApiError, dropped;
      }
      if previous != "" && previous != cred {
        ok := Mutate(state.(secrets := state.secrets - {previous}));
        if !ok {
          return ApiError, dropped;
        }
      }
      forall b ensures FilterName(r, b) == fname ==> b == ref.name { NamesInjective(r, b, ref.name); }
      ok := Mutate(state.(filters := state.filters[fname := FilterFor(r, ref)]));
      o := if ok then Done else ApiError;
    }

    /** One reference; one that does not complete has stopped after `step` calls, or lost only the
        reply to the last. */
    method SyncBackendRef(r: string, ns: string, listed: set<string>, ref: Ref) returns (o: Outcome, ghost step: nat)
      requires WellFormed(r, state)
      modifies this
      ensures o.Done? ==> SyncRef(r, ns, old(state), listed, ref) == Some(state)
      ensures o.Done? || RefStep(r, old(state), ref, step) == Some(state)
              || SyncRef(r, ns, old(state), listed, ref) == Some(state)
      ensures o.Rejected? ==> SyncRef(r, ns, old(state), listed, ref).None?
      ensures (forall n :: !fails(n)) ==> !o.ApiError?
      ensures WellFormed(r, state) && Confined(r, old(state), state)
    {
      OursNamed(r, ref.name);
      ghost var before := state;
      var name := RouteName(r, ref.name);
      if ref.ns.Some? && ref.ns.value != ns {
        return Rejected, 0;
      }
      o := EnsureCredentials(r, ref);
      if !o.Done? {
        return o, if state == before then 0 else 1;
      }
      ghost var dropped: State;
      o, dropped := EnsureFilter(r, ref);
      if !o.Done? {
        return o, if RefStep(r, before, ref, 1) == Some(state) then 1 else if state == dropped then 2 else 3;
      }
      if name in state.routes && name !in listed {
        return Rejected, 3;
      }
      var ok := Mutate(state.(routes := state.routes[name := HttpRoute(true, ref)]));
      return if ok then Done else ApiError, 3;
    }

    /** One orphan: its HTTPRoute, filter and Secret. */
    method DeleteOrphan(r: string, n: string) returns (o: Outcome, ghost step: nat)
      requires WellFormed(r, state) && Ours(BR, r, n)
      modifies this
      ensures !o.Rejected? && ((forall c :: !fails(c)) ==> o.Done?)
      ensures step <= 3 && state == OrphanStep(old(state), n, step) && (o.Done? ==> step == 3)
      ensures WellFormed(r, state) && Confined(r, old(state), state)
    {
      OrphanOurs(r, n);
      ghost var before := state;
      var ok := Mutate(state.(routes := state.routes - {n}));
      if !ok {
        return ApiError, if state == before then 0 else 1;
      }
      ok := Mutate(state.(filters := state.filters - {FilterOf(n)}));
      if !ok {
        return ApiError, if state == OrphanStep(before, n, 1) then 1 else 2;
      }
      ok := Mutate(state.(secrets := state.secrets - {SecretOf(n)}));
      return if ok then Done else ApiError, if state == OrphanStep(before, n, 3) then 3 else 2;
    }

    method DeleteOrphans(r: string, orphans: set<string>) returns (o: Outcome, ghost stop: Stop)
      requires WellFormed(r, state) && forall n :: n in orphans ==> Ours(BR, r, n)
      modifies this
      ensures !o.Rejected? && ((forall c :: !fails(c)) ==> o.Done?)
      ensures o.Done? ==> state == WithoutOrphans(old(state), orphans)
      ensures !o.Done? ==> stop.AtOrphan? && stop.gone <= orphans && stop.n in orphans - stop.gone && stop.step <= 3
                           && state == OrphanStep(WithoutOrphans(old(state), stop.gone), stop.n, stop.step)
      ensures WellFormed(r, state) && Confined(r, old(state), state)
    {
      var left := orphans;
      assert orphans - left == {};
      while left != {}
        invariant left <= orphans && WellFormed(r, state) && Confined(r, old(state), state)
        invariant state == WithoutOrphans(old(state), orphans - left)
        decreases left
      {
        var n :| n in left;
        ghost var gone := orphans - left;
        ghost var step: nat;
        o, step := DeleteOrphan(r, n);
        if !o.Done? {
          return o, AtOrphan(gone, n, step);
        }
        left := left - {n};
        assert orphans - left == gone + {n};
        WithoutOneMore(old(state), gone, n);
      }
      assert orphans - left == orphans;
      return Done, AtRef(0, 0);
    }

    /** The per-backend part of a sync. A completed one leaves the specified state, a rejected one
        means there is none; one that does not complete has stopped at some point of the way; every
        one keeps the state well-formed and touches nothing that does not carry the route's name. */
    method SyncMCPRoute(r: string, ns: string, refs: seq<Ref>) returns (o: Outcome, ghost stop: Stop)
      requires WellFormed(r, state)
      modifies this
      ensures o.Done? ==> Synced(r, ns, old(state), refs) == Some(state)
      ensures !o.Done? ==> StoppedAt(r, ns, old(state), refs, stop) == Some(state)
      ensures o.Rejected? ==> Synced(r, ns, old(state), refs).None?
      ensures (forall n :: !fails(n)) ==> !o.ApiError?
      ensures WellFormed(r, state) && Confined(r, old(state), state)
    {
      var ok := Read();
      if !ok {
        return ApiError, AtRef(0, 0);
      }
      var existing := Listed(state);
      o, existing, stop := SyncBackendRefs(r, ns, existing, refs);
      if o.Done? {
        ghost var synced := state;
        o, stop := DeleteOrphans(r, existing);
        ConfinedTransitive(r, old(state), synced, state);
      }
    }

    /** The loop over the references; handled HTTPRoutes leave the map of existing ones. */
    method SyncBackendRefs(r: string, ns: string, listed: set<string>, refs: seq<Ref>)
      returns (o: Outcome, existing: set<string>, ghost stop: Stop)
      requires WellFormed(r, state) && listed == Listed(state)
      modifies this
      ensures o.Done? ==> SyncRefs(r, ns, old(state), listed, refs) == Some(state)
      ensures o.Done? ==> existing == listed - RouteNames(r, refs)
      ensures !o.Done? ==> StoppedAt(r, ns, old(state), refs, stop) == Some(state)
      ensures o.Rejected? ==> SyncRefs(r, ns, old(state), listed, refs).None?
      ensures (forall n :: !fails(n)) ==> !o.ApiError?
      ensures WellFormed(r, state) && Confined(r, old(state), state)
    {
      ghost var before := state;
      existing := listed;
      for i := 0 to |refs|
        invariant WellFormed(r, state) && Confined(r, before, state)
        invariant SyncRefs(r, ns, before, listed, refs[..i]) == Some(state)
        invariant existing == listed - RouteNames(r, refs[..i])
      {
        ghost var here := state;
        ghost var step: nat;
        SyncRefsStep(r, ns, before, listed, refs, i);
        RouteNamesStep(r, refs, i);
        o, step := SyncBackendRef(r, ns, existing, refs[i]);
        ConfinedTransitive(r, before, here, state);
        if !o.Done? {
          if o.Rejected? {
            RejectedPrefix(r, ns, before, listed, refs, i + 1);
          }
          return o, existing,
            if RefStep(r, here, refs[i], step) == Some(state) then AtRef(i, step) else AtRef(i + 1, 0);
        }
        existing := existing - {RouteName(r, refs[i].name)};
      }
      assert refs[..|refs|] == refs;
      return Done, existing, AtRef(0, 0);
    }
  }

  lemma ConfinedTransitive(r: string, a: State, b: State, c: State)
    requires Confined(r, a, b) && Confined(r, b, c)
    ensures Confined(r, a, c)
  {
  }

  lemma SyncRefsStep(r: string, ns: string, s: State, listed: set<string>, refs: seq<Ref>, i: nat)
    requires i < |refs| && SyncRefs(r, ns, s, listed, refs[..i]).Some?
    ensures SyncRefs(r, ns, s, listed, refs[..i + 1])
         == SyncRef(r, ns, SyncRefs(r, ns, s, listed, refs[..i]).value, listed - RouteNames(r, refs[..i]), refs[i])
  {
    var more := refs[..i + 1];
    assert more[..i] == refs[..i] && more[i] == refs[i];
  }

  lemma RouteNamesStep(r: string, refs: seq<Ref>, i: nat)
    requires i < |refs|
    ensures RouteNames(r, refs[..i + 1]) == RouteNames(r, refs[..i]) + {RouteName(r, refs[i].name)}
  {
  }

  lemma WithoutOneMore(s: State, gone: set<string>, n: string)
    ensures var t := WithoutOrphans(s, gone);
            WithoutOrphans(s, gone + {n}) == State(t.routes - {n}, t.filters - {FilterOf(n)}, t.secrets - {SecretOf(n)})
  {
    assert (set x | x in gone + {n} :: FilterOf(x)) == (set x | x in gone :: FilterOf(x)) + {FilterOf(n)};
    assert (set x | x in gone + {n} :: SecretOf(x)) == (set x | x in gone :: SecretOf(x)) + {SecretOf(n)};
  }

  lemma {:induction false} RejectedPrefix(r: string, ns: string, s: State, listed: set<string>, refs: seq<Ref>, n: nat)
    requires n <= |refs| && SyncRefs(r, ns, s, listed, refs[..n]).None?
    ensures SyncRefs(r, ns, s, listed, refs).None?
    decreases |refs| - n
  {
    if n < |refs| {
      assert refs[..n + 1][..n] == refs[..n];
      RejectedPrefix(r, ns, s, listed, refs, n + 1);
    } else {
      assert refs[..n] == refs;
    }
  }
}
