/** internal/controller/quota_policy.go: the incremental cache of rate-limit configs and the
    snapshot pushed to the xDS runner. */
module QuotaCache {
  import opened Text
  import opened RateLimit

  const QUOTA_DOMAIN := "ai-gateway-quota"

  datatype Config = Config(name: string, domain: string, descriptors: seq<Descriptor>)
  type Cache = map<string, seq<Config>>

  /* ---- Go string order ---- */

  predicate Less(a: string, b: string) {
    b != "" && (a == "" || a[0] < b[0] || (a[0] == b[0] && Less(a[1..], b[1..])))
  }

  lemma {:induction false} LessTotal(a: string, b: string)
    ensures Less(a, b) || a == b || Less(b, a)
    ensures !(Less(a, b) && Less(b, a))
    ensures Less(a, b) ==> a != b
  {
    if a != "" && b != "" && a[0] == b[0] {
      LessTotal(a[1..], b[1..]);
      assert a == [a[0]] + a[1..] && b == [b[0]] + b[1..];
    }
  }

  lemma {:induction false} LessTransitive(a: string, b: string, c: string)
    requires Less(a, b) && Less(b, c)
    ensures Less(a, c)
  {
    if a != "" && a[0] == b[0] == c[0] {
      LessTransitive(a[1..], b[1..], c[1..]);
    }
  }

  predicate Sorted(keys: seq<string>) {
    forall i, j :: 0 <= i < j < |keys| ==> Less(keys[i], keys[j])
  }

  lemma HasMember(a: seq<string>)
    ensures a != [] ==> exists k :: k in a
  {
    if a != [] {
      assert a[0] in a;
    }
  }

  /** The order of the keys is a function of their set: whatever order a Go map yields them in,
      sorting gives one result. */
  lemma {:induction false} SortedUnique(a: seq<string>, b: seq<string>)
    requires Sorted(a) && Sorted(b)
    requires forall k :: k in a <==> k in b
    ensures a == b
  {
    HasMember(a);
    HasMember(b);
    if a != [] {
      assert a[0] in b && b[0] in a;
      LessTotal(a[0], b[0]);
      assert a[0] == b[0];
      forall k ensures k in a[1..] <==> k in b[1..] {
        LessTotal(k, a[0]);
        assert k in a[1..] <==> k in a && k != a[0] by { TailMembers(a, k); }
        assert k in b[1..] <==> k in b && k != b[0] by { TailMembers(b, k); }
      }
      SortedUnique(a[1..], b[1..]);
    }
  }

  lemma TailMembers(a: seq<string>, k: string)
    requires a != [] && Sorted(a)
    ensures k in a[1..] <==> k in a && k != a[0]
  {
    assert a == [a[0]] + a[1..];
    if k in a[1..] {
      var i :| 0 <= i < |a[1..]| && a[1..][i] == k;
      assert a[i + 1] == k;
      LessTotal(a[0], a[i + 1]);
    }
  }

  /** `sort.Strings` on distinct strings, as insertion sort. */
  method SortStrings(keys: seq<string>) returns (r: seq<string>)
    requires forall i, j :: 0 <= i < j < |keys| ==> keys[i] != keys[j]
    ensures Sorted(r) && (forall k :: k in r <==> k in keys)
  {
    r := [];
    for n := 0 to |keys|
      invariant Sorted(r) && (forall k :: k in r <==> k in keys[..n])
    {
      var key, i := keys[n], 0;
      assert key !in keys[..n];
      while i < |r| && Less(r[i], key)
        invariant i <= |r| && forall j :: 0 <= j < i ==> Less(r[j], key)
      {
        i := i + 1;
      }
      InsertSorted(r, key, i);
      r := r[..i] + [key] + r[i..];
      assert keys[..n + 1] == keys[..n] + [key];
    }
    assert keys[..|keys|] == keys;
  }

  lemma InsertSorted(r: seq<string>, key: string, i: nat)
    requires Sorted(r) && key !in r && i <= |r|
    requires forall j :: 0 <= j < i ==> Less(r[j], key)
    requires i < |r| ==> !Less(r[i], key)
    ensures var s := r[..i] + [key] + r[i..]; Sorted(s) && forall k :: k in s <==> k in r || k == key
  {
    var s := r[..i] + [key] + r[i..];
    forall j | i <= j < |r| ensures Less(key, r[j]) {
      LessTotal(r[i], key);
      if j > i {
        LessTransitive(key, r[i], r[j]);
      }
    }
    assert r == r[..i] + r[i..];
  }

  /** The keys of a cache in ascending order. */
  ghost function SortedKeys(keys: set<string>): (r: seq<string>)
    ensures Sorted(r) && forall k :: k in r <==> k in keys
  {
    if keys == {} then [] else
      var k :| k in keys;
      var rest := SortedKeys(keys - {k});
      var i := InsertionPoint(rest, k);
      InsertSorted(rest, k, i);
      rest[..i] + [k] + rest[i..]
  }

  ghost function InsertionPoint(r: seq<string>, key: string): (i: nat)
    ensures i <= |r| && (forall j :: 0 <= j < i ==> Less(r[j], key)) && (i < |r| ==> !Less(r[i], key))
  {
    if r == [] || !Less(r[0], key) then 0 else 1 + InsertionPoint(r[1..], key)
  }

  /* ---- The published snapshot ---- */

  function DescriptorsOf(configs: seq<Config>): seq<Descriptor> {
    if configs == [] then [] else DescriptorsOf(configs[..|configs| - 1]) + configs[|configs| - 1].descriptors
  }

  function Gather(cache: Cache, keys: seq<string>): seq<Descriptor>
    requires forall k :: k in keys ==> k in cache
  {
    if keys == [] then [] else Gather(cache, keys[..|keys| - 1]) + DescriptorsOf(cache[keys[|keys| - 1]])
  }

  /** What a full rebuild publishes: all policies in ascending "namespace/name" order, merged. */
  ghost function Published(cache: Cache): seq<Config> {
    var all := Gather(cache, SortedKeys(cache.Keys));
    if all == [] then [] else [Config(QUOTA_DOMAIN, QUOTA_DOMAIN, Merge(all))]
  }

  /** The settings of a snapshot at a path. */
  function SnapshotAt(snapshot: seq<Config>, path: seq<string>): Meaning
    requires path != []
  {
    At(DescriptorsOf(snapshot), path)
  }

  /** The limit one policy itself sets at a path. */
  function LimitOf(cache: Cache, key: string, path: seq<string>): Option<Limit>
    requires key in cache && path != []
  {
    At(DescriptorsOf(cache[key]), path).limit
  }

  lemma {:induction false} GatherAt(cache: Cache, keys: seq<string>, n: nat, path: seq<string>)
    requires (forall k :: k in keys ==> k in cache) && path != [] && n < |keys|
    requires forall j :: 0 <= j < n ==> LimitOf(cache, keys[j], path).None?
    requires LimitOf(cache, keys[n], path).Some?
    ensures At(Gather(cache, keys), path).limit == LimitOf(cache, keys[n], path)
    decreases |keys|
  {
    var front := keys[..|keys| - 1];
    AtConcat(Gather(cache, front), DescriptorsOf(cache[keys[|keys| - 1]]), path);
    if n < |keys| - 1 {
      GatherAt(cache, front, n, path);
    } else {
      GatherAtNone(cache, front, path);
    }
  }

  lemma {:induction false} GatherAtNone(cache: Cache, keys: seq<string>, path: seq<string>)
    requires (forall k :: k in keys ==> k in cache) && path != []
    requires forall j :: 0 <= j < |keys| ==> LimitOf(cache, keys[j], path).None?
    ensures At(Gather(cache, keys), path).limit.None?
    decreases |keys|
  {
    if keys != [] {
      var front := keys[..|keys| - 1];
      AtConcat(Gather(cache, front), DescriptorsOf(cache[keys[|keys| - 1]]), path);
      GatherAtNone(cache, front, path);
    }
  }

  lemma PublishedAt(cache: Cache, path: seq<string>)
    requires path != []
    ensures SnapshotAt(Published(cache), path) == At(Gather(cache, SortedKeys(cache.Keys)), path)
  {
    var all := Gather(cache, SortedKeys(cache.Keys));
    if all != [] {
      var merged := Merge(all);
      MergePreserves(all, path);
      var c := Config(QUOTA_DOMAIN, QUOTA_DOMAIN, merged);
      assert [c][..0] == [];
      assert DescriptorsOf([c]) == DescriptorsOf([c][..0]) + merged == merged;
    }
  }

  /** At every descriptor path, the published limit is the one of the alphabetically first policy
      that sets a limit there. */
  lemma FirstPolicyWins(cache: Cache, path: seq<string>, key: string)
    requires path != [] && key in cache
    requires LimitOf(cache, key, path).Some?
    requires forall k :: k in cache && Less(k, key) ==> LimitOf(cache, k, path).None?
    ensures SnapshotAt(Published(cache), path).limit == LimitOf(cache, key, path)
  {
    var keys := SortedKeys(cache.Keys);
    PublishedAt(cache, path);
    var n :| 0 <= n < |keys| && keys[n] == key;
    forall j | 0 <= j < n ensures LimitOf(cache, keys[j], path).None? {
      assert keys[j] in keys && Less(keys[j], keys[n]);
    }
    GatherAt(cache, keys, n, path);
  }

  /** ... and a path no policy limits stays unlimited. */
  lemma NoPolicyNoLimit(cache: Cache, path: seq<string>)
    requires path != [] && forall k :: k in cache ==> LimitOf(cache, k, path).None?
    ensures SnapshotAt(Published(cache), path).limit.None?
  {
    PublishedAt(cache, path);
    GatherAtNone(cache, SortedKeys(cache.Keys), path);
  }

  /** A path is published, and carries a mode, exactly if some policy publishes it, or sets the mode. */
  lemma PublishedModes(cache: Cache, path: seq<string>)
    requires path != []
    ensures var m := SnapshotAt(Published(cache), path);
            && (m.present <==> exists k :: k in cache && At(DescriptorsOf(cache[k]), path).present)
            && (m.quota <==> exists k :: k in cache && At(DescriptorsOf(cache[k]), path).quota)
            && (m.shadow <==> exists k :: k in cache && At(DescriptorsOf(cache[k]), path).shadow)
  {
    PublishedAt(cache, path);
    GatherModes(cache, SortedKeys(cache.Keys), path);
  }

  lemma {:induction false} GatherModes(cache: Cache, keys: seq<string>, path: seq<string>)
    requires (forall k :: k in keys ==> k in cache) && path != []
    ensures var m := At(Gather(cache, keys), path);
            && (m.present <==> exists k :: k in keys && At(DescriptorsOf(cache[k]), path).present)
            && (m.quota <==> exists k :: k in keys && At(DescriptorsOf(cache[k]), path).quota)
            && (m.shadow <==> exists k :: k in keys && At(DescriptorsOf(cache[k]), path).shadow)
    decreases |keys|
  {
    if keys != [] {
      var front, last := keys[..|keys| - 1], keys[|keys| - 1];
      AtConcat(Gather(cache, front), DescriptorsOf(cache[last]), path);
      GatherModes(cache, front, path);
      assert keys == front + [last];
      assert forall k :: k in keys <==> k in front || k == last;
    }
  }

  /** The snapshot is one config of the quota domain, or none at all when no policy has a descriptor. */
  lemma PublishedShape(cache: Cache)
    ensures |Published(cache)| <= 1
    ensures Published(cache) != [] ==>
              Published(cache)[0].name == "ai-gateway-quota" && Published(cache)[0].domain == "ai-gateway-quota"
    ensures Published(cache) == [] <==> forall k :: k in cache ==> DescriptorsOf(cache[k]) == []
  {
    GatherEmpty(cache, SortedKeys(cache.Keys));
  }

  lemma {:induction false} GatherEmpty(cache: Cache, keys: seq<string>)
    requires forall k :: k in keys ==> k in cache
    ensures Gather(cache, keys) == [] <==> forall k :: k in keys ==> DescriptorsOf(cache[k]) == []
    decreases |keys|
  {
    if keys != [] {
      var front, last := keys[..|keys| - 1], keys[|keys| - 1];
      GatherEmpty(cache, front);
      assert keys == front + [last];
      assert forall k :: k in keys <==> k in front || k == last;
    }
  }

  /* ---- The controller ---- */

  function CacheKey(ns: string, name: string): string { ns + "/" + name }

  datatype Policy = Policy(ns: string, name: string, targetRefs: seq<string>)
  datatype Lookup = Backend(id: string) | Missing | LookupError
  datatype BuildResult = Built(configs: seq<Config>) | BuildError

  /** What `syncQuotaPolicy` puts into the cache, if it gets that far: a lookup error, no backend
      found at all, or a build error stop it before the cache is touched. */
  function ConfigsFor(policy: Policy, lookup: string -> Lookup,
                      build: (Policy, seq<string>) -> BuildResult): BuildResult {
    var backends := Resolve(policy.targetRefs, lookup);
    if backends.None? || (backends.value == [] && policy.targetRefs != []) then BuildError
    else if backends.value == [] then Built([])
    else build(policy, backends.value)
  }

  function Resolve(refs: seq<string>, lookup: string -> Lookup): Option<seq<string>> {
    if refs == [] then Some([]) else
      var front := Resolve(refs[..|refs| - 1], lookup);
      if front.None? then None else
        match lookup(refs[|refs| - 1])
        case Backend(id) => Some(front.value + [id])
        case Missing => front
        case LookupError => None
  }

  lemma {:induction false} ResolvePrefix(refs: seq<string>, n: nat, lookup: string -> Lookup)
    requires n <= |refs| && Resolve(refs[..n], lookup).None?
    ensures Resolve(refs, lookup).None?
    decreases |refs| - n
  {
    if n < |refs| {
      assert refs[..n + 1][..n] == refs[..n];
      ResolvePrefix(refs, n + 1, lookup);
    } else {
      assert refs[..n] == refs;
    }
  }

  /** A lookup error anywhere stops it; without one, nothing is found exactly if every backend is missing. */
  lemma {:induction false} ResolveIff(refs: seq<string>, lookup: string -> Lookup)
    ensures Resolve(refs, lookup).None? <==> exists i :: 0 <= i < |refs| && lookup(refs[i]).LookupError?
    ensures Resolve(refs, lookup).Some? ==>
              (Resolve(refs, lookup).value == [] <==> forall i :: 0 <= i < |refs| ==> lookup(refs[i]).Missing?)
  {
    if refs != [] {
      var front, last := refs[..|refs| - 1], refs[|refs| - 1];
      ResolveIff(front, lookup);
      assert forall i :: 0 <= i < |front| ==> front[i] == refs[i];
    }
  }

  lemma {:induction false} ResolveAppend(a: seq<string>, b: seq<string>, lookup: string -> Lookup)
    requires Resolve(a, lookup).Some? && Resolve(b, lookup).Some?
    ensures Resolve(a + b, lookup) == Some(Resolve(a, lookup).value + Resolve(b, lookup).value)
    decreases |b|
  {
    var head := Resolve(a, lookup).value;
    if b == [] {
      assert a + b == a && head + [] == head;
    } else {
      var front := b[..|b| - 1];
      assert (a + b)[..|a + b| - 1] == a + front && (a + b)[|a + b| - 1] == b[|b| - 1];
      ResolveAppend(a, front, lookup);
      match lookup(b[|b| - 1])
      case Backend(id) => ConcatAssociates(head, Resolve(front, lookup).value, [id]);
      case Missing =>
    }
  }

  /** A found backend is kept in its place, a missing one is skipped. */
  lemma ResolveConcat(a: seq<string>, ref: string, b: seq<string>, lookup: string -> Lookup)
    requires Resolve(a, lookup).Some? && Resolve(b, lookup).Some? && !lookup(ref).LookupError?
    ensures Resolve(a + [ref] + b, lookup)
         == Some(Resolve(a, lookup).value + (if lookup(ref).Backend? then [lookup(ref).id] else [])
                 + Resolve(b, lookup).value)
  {
    ResolveOne(ref, lookup);
    ResolveAppend(a, [ref], lookup);
    ResolveAppend(a + [ref], b, lookup);
  }

  lemma ResolveOne(ref: string, lookup: string -> Lookup)
    requires !lookup(ref).LookupError?
    ensures Resolve([ref], lookup) == Some(if lookup(ref).Backend? then [lookup(ref).id] else [])
  {
    var none: seq<string> := [];
    assert [ref][..0] == none && Resolve(none, lookup) == Some(none);
    assert forall id :: none + [id] == [id];
  }

  /** A sync is refused exactly when a lookup fails, when backends are listed and none is found, or
      when the build for those found fails; otherwise it caches what was built, nothing for a policy
      without backends. */
  lemma SyncRefusedIff(policy: Policy, lookup: string -> Lookup, build: (Policy, seq<string>) -> BuildResult)
    ensures var refs, r := policy.targetRefs, ConfigsFor(policy, lookup, build);
            && (refs == [] ==> r == Built([]))
            && ((exists i :: 0 <= i < |refs| && lookup(refs[i]).LookupError?) ==> r.BuildError?)
            && (refs != [] && (forall i :: 0 <= i < |refs| ==> lookup(refs[i]).Missing?) ==> r.BuildError?)
            && ((forall i :: 0 <= i < |refs| ==> !lookup(refs[i]).LookupError?)
                && (exists i :: 0 <= i < |refs| && lookup(refs[i]).Backend?) ==>
                  Resolve(refs, lookup).Some? && r == build(policy, Resolve(refs, lookup).value))
  {
    ResolveIff(policy.targetRefs, lookup);
  }

  /** Ranging over a Go map: every key once, in any order. */
  method CollectKeys(cache: Cache) returns (keys: seq<string>)
    ensures forall k :: k in keys <==> k in cache
    ensures forall i, j :: 0 <= i < j < |keys| ==> keys[i] != keys[j]
  {
    keys := [];
    var left := cache.Keys;
    while left != {}
      invariant left <= cache.Keys
      invariant forall k :: k in keys <==> k in cache && k !in left
      invariant forall i, j :: 0 <= i < j < |keys| ==> keys[i] != keys[j]
      decreases left
    {
      var k :| k in left;
      keys, left := keys + [k], left - {k};
    }
  }

  method GatherAll(cache: Cache, keys: seq<string>) returns (all: seq<Descriptor>)
    requires forall k :: k in keys ==> k in cache
    ensures all == Gather(cache, keys)
  {
    all := [];
    for n := 0 to |keys|
      invariant all == Gather(cache, keys[..n])
    {
      assert keys[..n + 1][..n] == keys[..n];
      var configs, before := cache[keys[n]], all;
      for m := 0 to |configs|
        invariant all == before + DescriptorsOf(configs[..m])
      {
        assert configs[..m + 1][..m] == configs[..m];
        all := all + configs[m].descriptors;
      }
      assert configs[..|configs|] == configs;
    }
    assert keys[..|keys|] == keys;
  }

  /** The controller and the runner it pushes to; both live under the controller's lock. */
  class QuotaPolicyController {
    var configCache: Cache
    /** The last snapshot the runner accepted. */
    var pushed: Option<seq<Config>>

    constructor ()
      ensures configCache == map[] && pushed.None?
    {
      configCache, pushed := map[], None;
    }

    method GetMergedConfigsLocked() returns (r: seq<Config>)
      ensures r == Published(configCache)
    {
      var keys := CollectKeys(configCache);
      keys := SortStrings(keys);
      SortedUnique(keys, SortedKeys(configCache.Keys));
      var all := GatherAll(configCache, keys);
      if |all| == 0 {
        return [];
      }
      var merged := MergeDescriptors(all);
      r := [Config(QUOTA_DOMAIN, QUOTA_DOMAIN, merged)];
    }

    /** `accept` is the runner's answer to the push. */
    method SyncQuotaPolicy(policy: Policy, lookup: string -> Lookup, build: (Policy, seq<string>) -> BuildResult,
                           accept: bool)
      returns (ok: bool)
      modifies this
      ensures var built := ConfigsFor(policy, lookup, build);
              && State(configCache, pushed) ==
                 (if built.Built?
                  then Step(old(State(configCache, pushed)), Sync(policy.ns, policy.name, built.configs, accept))
                  else old(State(configCache, pushed)))
              && (ok <==> built.Built? && accept)
    {
      var backends: seq<string> := [];
      for n := 0 to |policy.targetRefs|
        invariant Resolve(policy.targetRefs[..n], lookup) == Some(backends)
      {
        var refs := policy.targetRefs[..n + 1];
        assert refs[..n] == policy.targetRefs[..n];
        match lookup(policy.targetRefs[n]) {
          case Backend(id) => backends := backends + [id];
          case Missing =>
          case LookupError =>
            ResolvePrefix(policy.targetRefs, n + 1, lookup);
            return false;
        }
      }
      assert policy.targetRefs[..|policy.targetRefs|] == policy.targetRefs;
      if |backends| == 0 && |policy.targetRefs| > 0 {
        return false;
      }
      var configs: seq<Config> := [];
      if |backends| > 0 {
        var built := build(policy, backends);
        if built.BuildError? {
          return false;
        }
        configs := built.configs;
      }
      configCache := configCache[CacheKey(policy.ns, policy.name) := configs];
      var all := GetMergedConfigsLocked();
      if accept {
        pushed := Some(all);
      }
      ok := accept;
    }

    method DeleteQuotaPolicyConfig(ns: string, name: string, accept: bool) returns (ok: bool)
      modifies this
      ensures State(configCache, pushed) == Step(old(State(configCache, pushed)), Delete(ns, name, accept))
      ensures ok <==> accept
    {
      configCache := configCache - {CacheKey(ns, name)};
      var all := GetMergedConfigsLocked();
      if accept {
        pushed := Some(all);
      }
      ok := accept;
    }
  }

  /* ---- Runs ---- */

  datatype State = State(cache: Cache, pushed: Option<seq<Config>>)

  /** One lock-protected section, with the runner's answer to its push. */
  datatype Event =
    | Sync(ns: string, name: string, configs: seq<Config>, accepted: bool)
    | Delete(ns: string, name: string, accepted: bool)

  ghost function Step(s: State, e: Event): State {
    var cache := if e.Sync? then s.cache[CacheKey(e.ns, e.name) := e.configs] else s.cache - {CacheKey(e.ns, e.name)};
    State(cache, if e.accepted then Some(Published(cache)) else s.pushed)
  }

  ghost function Run(events: seq<Event>): State {
    if events == [] then State(map[], None) else Step(Run(events[..|events| - 1]), events[|events| - 1])
  }

  /** What the history says about one policy: the configs of its last sync, unless deleted since. */
  function Latest(events: seq<Event>, ns: string, name: string): Option<seq<Config>> {
    if events == [] then None else
      var e := events[|events| - 1];
      if e.ns == ns && e.name == name then (if e.Sync? then Some(e.configs) else None)
      else Latest(events[..|events| - 1], ns, name)
  }

  /** Namespaces are RFC 1123 labels, so they hold no slash. */
  ghost predicate SlashFree(events: seq<Event>) {
    forall i :: 0 <= i < |events| ==> '/' !in events[i].ns
  }

  function Get(cache: Cache, key: string): Option<seq<Config>> {
    if key in cache then Some(cache[key]) else None
  }

  /** The incremental cache holds, for every policy, exactly what its history says. */
  lemma {:induction false} CacheIsLatest(events: seq<Event>, ns: string, name: string)
    requires SlashFree(events) && '/' !in ns
    ensures Get(Run(events).cache, CacheKey(ns, name)) == Latest(events, ns, name)
  {
    if events != [] {
      var e := events[|events| - 1];
      CacheIsLatest(events[..|events| - 1], ns, name);
      if CacheKey(e.ns, e.name) == CacheKey(ns, name) {
        FirstSepInjective(e.ns, e.name, ns, name, '/');
      }
    }
  }

  /** ... and nothing else: every entry is that of a policy whose latest event is a sync. */
  lemma CacheHasOnlyPolicies(events: seq<Event>, key: string)
    requires SlashFree(events) && key in Run(events).cache
    ensures exists ns, name ::
              '/' !in ns && key == CacheKey(ns, name) && Latest(events, ns, name) == Some(Run(events).cache[key])
  {
    var ns, name := KeyOfPolicy(events, key);
    CacheIsLatest(events, ns, name);
  }

  lemma {:induction false} KeyOfPolicy(events: seq<Event>, key: string) returns (ns: string, name: string)
    requires SlashFree(events) && key in Run(events).cache
    ensures '/' !in ns && key == CacheKey(ns, name)
  {
    var e := events[|events| - 1];
    if key == CacheKey(e.ns, e.name) {
      return e.ns, e.name;
    }
    ns, name := KeyOfPolicy(events[..|events| - 1], key);
  }

  lemma SameLatestSameCache(a: seq<Event>, b: seq<Event>)
    requires SlashFree(a) && SlashFree(b)
    requires forall ns, name :: '/' !in ns ==> Latest(a, ns, name) == Latest(b, ns, name)
    ensures Run(a).cache == Run(b).cache
  {
    forall key ensures Get(Run(a).cache, key) == Get(Run(b).cache, key) {
      if key in Run(a).cache {
        CacheHasOnlyPolicies(a, key);
      } else if key in Run(b).cache {
        CacheHasOnlyPolicies(b, key);
      }
      if ns, name :| '/' !in ns && key == CacheKey(ns, name) {
        CacheIsLatest(a, ns, name);
        CacheIsLatest(b, ns, name);
      }
    }
    assert forall key :: key in Run(a).cache <==> Get(Run(a).cache, key).Some?;
    assert forall key :: key in Run(b).cache <==> Get(Run(b).cache, key).Some?;
    assert forall key :: key in Run(a).cache ==> Run(a).cache[key] == Get(Run(a).cache, key).value == Run(b).cache[key];
  }

  /** Every accepted push is what a rebuild from the policies' latest states would publish, however
      the syncs, deletes and refused pushes before it were interleaved: two histories that agree
      on every policy's latest state publish the same snapshot. */
  lemma PushedIsRebuild(a: seq<Event>, b: seq<Event>)
    requires SlashFree(a) && SlashFree(b) && a != [] && b != []
    requires a[|a| - 1].accepted && b[|b| - 1].accepted
    requires forall ns, name :: '/' !in ns ==> Latest(a, ns, name) == Latest(b, ns, name)
    ensures Run(a).pushed == Some(Published(Run(a).cache)) == Run(b).pushed
  {
    SameLatestSameCache(a, b);
  }

  lemma LastPush(events: seq<Event>)
    ensures events == [] ==> Run(events).pushed.None?
    ensures events != [] ==>
              Run(events).pushed == if events[|events| - 1].accepted then Some(Published(Run(events).cache))
                                    else Run(events[..|events| - 1]).pushed
  {
  }

  /** The end of the shortest prefix after which no push was accepted; 0 if none ever was. */
  function LastAccepted(events: seq<Event>): (n: nat)
    ensures n <= |events| && (n > 0 ==> events[n - 1].accepted)
    ensures forall i :: n <= i < |events| ==> !events[i].accepted
  {
    if events == [] || events[|events| - 1].accepted then |events| else LastAccepted(events[..|events| - 1])
  }

  /** The last accepted snapshot is the publication of the cache as it was at that push. */
  lemma {:induction false} PushedIsSomePrefix(events: seq<Event>)
    ensures Run(events).pushed
         == if LastAccepted(events) == 0 then None else Some(Published(Run(events[..LastAccepted(events)]).cache))
  {
    LastPush(events);
    var n := LastAccepted(events);
    if n == |events| {
      assert events[..n] == events;
    } else {
      var front := events[..|events| - 1];
      PushedIsSomePrefix(front);
      assert front[..n] == events[..n];
    }
  }

  /** Adding a policy and deleting it again publishes what was published without it, whatever else
      happened in between and whether or not the intermediate pushes were accepted. */
  lemma SyncThenDelete(before: seq<Event>, ns: string, name: string, configs: seq<Config>, between: seq<Event>,
                       last: bool)
    requires SlashFree(before) && SlashFree(between) && '/' !in ns
    requires Latest(before, ns, name).None?
    requires forall i :: 0 <= i < |between| ==> (between[i].ns, between[i].name) != (ns, name)
    ensures Run(before + [Sync(ns, name, configs, last)] + between + [Delete(ns, name, true)]).pushed
         == Some(Published(Run(before + between).cache))
  {
    var with := before + [Sync(ns, name, configs, last)] + between + [Delete(ns, name, true)];
    forall ns', name' | '/' !in ns' ensures Latest(with, ns', name') == Latest(before + between, ns', name') {
      assert with[..|with| - 1] == before + [Sync(ns, name, configs, last)] + between;
      if ns' == ns && name' == name {
        LatestSkips(before, between, ns, name);
      } else {
        LatestSame(before, Sync(ns, name, configs, last), between, ns', name');
      }
    }
    SameLatestSameCache(with, before + between);
  }

  lemma {:induction false} LatestSkips(before: seq<Event>, between: seq<Event>, ns: string, name: string)
    requires forall i :: 0 <= i < |between| ==> (between[i].ns, between[i].name) != (ns, name)
    ensures Latest(before + between, ns, name) == Latest(before, ns, name)
    decreases |between|
  {
    var all := before + between;
    if between == [] {
      assert all == before;
    } else {
      assert all[..|all| - 1] == before + between[..|between| - 1];
      assert all[|all| - 1] == between[|between| - 1];
      LatestSkips(before, between[..|between| - 1], ns, name);
    }
  }

  lemma {:induction false} LatestSame(before: seq<Event>, e: Event, between: seq<Event>, ns: string, name: string)
    requires (e.ns, e.name) != (ns, name)
    ensures Latest(before + [e] + between, ns, name) == Latest(before + between, ns, name)
    decreases |between|
  {
    var long, short := before + [e] + between, before + between;
    if between == [] {
      assert long[..|long| - 1] == before && short == before;
    } else {
      assert long[..|long| - 1] == before + [e] + between[..|between| - 1];
      assert short[..|short| - 1] == before + between[..|between| - 1];
      LatestSame(before, e, between[..|between| - 1], ns, name);
    }
  }
}
