/** Request-body mutations: the two-level merge (internal/controller/gateway.go) and its execution
    (internal/bodymutator/body_mutator.go), over a body seen as a map of top-level fields. How a
    configured string becomes a JSON value is the parameter `read`. */
module BodyMutation {
  import opened Text

  datatype Field = Field(path: string, value: string)
  datatype Mutation = Mutation(sets: seq<Field>, removes: seq<string>)

  function Get<V>(body: map<string, V>, p: string): Option<V> {
    if p in body then Some(body[p]) else None
  }

  /** The value a list of sets leaves at a path: the last one for it wins. */
  function LastSet(sets: seq<Field>, p: string): Option<string> {
    if sets == [] then None
    else if sets[|sets| - 1].path == p then Some(sets[|sets| - 1].value)
    else LastSet(sets[..|sets| - 1], p)
  }

  /** What a mutation makes of the field `p`: sets beat removes, and the empty path is ignored. */
  function After<V>(m: Option<Mutation>, p: string, field: Option<V>, read: string -> V): Option<V> {
    if m.None? || p == "" then field
    else if LastSet(m.value.sets, p).Some? then Some(read(LastSet(m.value.sets, p).value))
    else if p in m.value.removes then None
    else field
  }

  /** Removals first, then sets, each in list order. */
  method Mutate<V>(m: Option<Mutation>, body: map<string, V>, read: string -> V) returns (r: map<string, V>)
    ensures forall p :: Get(r, p) == After(m, p, Get(body, p), read)
  {
    r := body;
    if m.None? {
      return;
    }
    var removes, sets := m.value.removes, m.value.sets;
    for n := 0 to |removes|
      invariant forall p :: Get(r, p) == if p != "" && p in removes[..n] then None else Get(body, p)
    {
      if removes[n] != "" {
        r := r - {removes[n]};
      }
      assert removes[..n + 1] == removes[..n] + [removes[n]];
    }
    assert removes[..|removes|] == removes;
    var trimmed := r;
    for n := 0 to |sets|
      invariant forall p :: Get(r, p) ==
                  if p != "" && LastSet(sets[..n], p).Some? then Some(read(LastSet(sets[..n], p).value))
                  else Get(trimmed, p)
    {
      if sets[n].path != "" {
        r := r[sets[n].path := read(sets[n].value)];
      }
      assert sets[..n + 1][..n] == sets[..n] && sets[..n + 1][n] == sets[n];
    }
    assert sets[..|sets|] == sets;
  }

  /* ---- The merge ---- */

  function Override(over: Option<string>, under: Option<string>): Option<string> {
    if over.Some? then over else under
  }

  predicate UniquePaths(sets: seq<Field>) {
    forall i, j :: 0 <= i < j < |sets| ==> sets[i].path != sets[j].path
  }

  predicate NoRepeat(s: seq<string>) {
    forall i, j :: 0 <= i < j < |s| ==> s[i] != s[j]
  }

  /** What is fixed about a merge, whatever order Go ranges over its maps in. */
  ghost predicate IsMerge(route: Option<Mutation>, backend: Option<Mutation>, merged: Option<Mutation>) {
    if route.None? then merged == backend
    else if backend.None? then merged == route
    else
      && merged.Some?
      && UniquePaths(merged.value.sets)
      && (forall p :: LastSet(merged.value.sets, p)
                      == Override(LastSet(route.value.sets, p), LastSet(backend.value.sets, p)))
      && NoRepeat(merged.value.removes)
      && (forall p :: p in merged.value.removes <==> p in route.value.removes || p in backend.value.removes)
  }

  method MergeBodyMutations(route: Option<Mutation>, backend: Option<Mutation>) returns (merged: Option<Mutation>)
    ensures IsMerge(route, backend, merged)
  {
    if route.None? {
      return backend;
    }
    if backend.None? {
      return route;
    }
    var fieldMap := AddFields(map[], backend.value.sets);
    fieldMap := AddFields(fieldMap, route.value.sets);
    var sets := FieldsInSomeOrder(fieldMap);
    var removeSet := AddNames({}, backend.value.removes);
    removeSet := AddNames(removeSet, route.value.removes);
    var removes := NamesInSomeOrder(removeSet);
    merged := Some(Mutation(sets, removes));
  }

  /** Every field is stored under its own path. */
  predicate Keyed(m: map<string, Field>) { forall p :: p in m ==> m[p].path == p }

  function ValueIn(m: map<string, Field>, p: string): Option<string> {
    if p in m then Some(m[p].value) else None
  }

  method AddFields(m: map<string, Field>, sets: seq<Field>) returns (r: map<string, Field>)
    requires Keyed(m)
    ensures Keyed(r) && forall p :: ValueIn(r, p) == Override(LastSet(sets, p), ValueIn(m, p))
  {
    r := m;
    for n := 0 to |sets|
      invariant Keyed(r) && forall p :: ValueIn(r, p) == Override(LastSet(sets[..n], p), ValueIn(m, p))
    {
      r := r[sets[n].path := sets[n]];
      assert sets[..n + 1][..n] == sets[..n] && sets[..n + 1][n] == sets[n];
    }
    assert sets[..|sets|] == sets;
  }

  method FieldsInSomeOrder(m: map<string, Field>) returns (sets: seq<Field>)
    requires Keyed(m)
    ensures UniquePaths(sets) && forall p :: LastSet(sets, p) == ValueIn(m, p)
  {
    sets := [];
    var left := m.Keys;
    while left != {}
      invariant left <= m.Keys
      invariant UniquePaths(sets) && forall i :: 0 <= i < |sets| ==> sets[i].path !in left
      invariant forall p :: LastSet(sets, p) == if p in left then None else ValueIn(m, p)
      decreases left
    {
      var p :| p in left;
      assert (sets + [m[p]])[..|sets|] == sets;
      sets, left := sets + [m[p]], left - {p};
    }
  }

  method AddNames(s: set<string>, names: seq<string>) returns (r: set<string>)
    ensures forall p :: p in r <==> p in s || p in names
  {
    r := s;
    for n := 0 to |names|
      invariant forall p :: p in r <==> p in s || p in names[..n]
    {
      r := r + {names[n]};
      assert names[..n + 1] == names[..n] + [names[n]];
    }
    assert names[..|names|] == names;
  }

  method NamesInSomeOrder(s: set<string>) returns (names: seq<string>)
    ensures NoRepeat(names) && forall p :: p in names <==> p in s
  {
    names := [];
    var left := s;
    while left != {}
      invariant left <= s && NoRepeat(names)
      invariant forall p :: p in names <==> p in s && p !in left
      decreases left
    {
      var p :| p in left;
      names, left := names + [p], left - {p};
    }
  }

  /* ---- What the merge means ---- */

  /** The one kind of conflict in which the route level does not win: it removes the field without
      setting it, and the backend level sets it. */
  predicate BackendSurvives(route: Option<Mutation>, backend: Option<Mutation>, p: string) {
    && route.Some? && backend.Some? && p != ""
    && p in route.value.removes
    && LastSet(route.value.sets, p).None?
    && LastSet(backend.value.sets, p).Some?
  }

  /** Applying the merged mutation is applying the backend's and then the route's, at every field
      but those; at those, and only those, the backend's value survives the route's removal. */
  lemma MergedVersusSequential<V>(route: Option<Mutation>, backend: Option<Mutation>, merged: Option<Mutation>,
                                  p: string, field: Option<V>, read: string -> V)
    requires IsMerge(route, backend, merged)
    ensures After(merged, p, field, read) == After(route, p, After(backend, p, field, read), read)
       <==> !BackendSurvives(route, backend, p)
    ensures BackendSurvives(route, backend, p) ==>
              && After(merged, p, field, read) == Some(read(LastSet(backend.value.sets, p).value))
              && After(route, p, After(backend, p, field, read), read) == None
  {
  }

  /** For whole bodies and every iteration order: the two agree exactly when no field is in that
      conflict. */
  method ExecuteBothWays<V(==)>(route: Option<Mutation>, backend: Option<Mutation>, body: map<string, V>,
                                read: string -> V)
    returns (viaMerge: map<string, V>, sequential: map<string, V>)
    ensures viaMerge == sequential <==> forall p :: !BackendSurvives(route, backend, p)
    ensures forall p :: Get(viaMerge, p) == Get(sequential, p) <==> !BackendSurvives(route, backend, p)
  {
    var merged := MergeBodyMutations(route, backend);
    viaMerge := Mutate(merged, body, read);
    var first := Mutate(backend, body, read);
    sequential := Mutate(route, first, read);
    forall p ensures Get(viaMerge, p) == Get(sequential, p) <==> !BackendSurvives(route, backend, p) {
      MergedVersusSequential(route, backend, merged, p, Get(body, p), read);
    }
    assert viaMerge == sequential <==> forall p :: Get(viaMerge, p) == Get(sequential, p) by {
      if forall p :: Get(viaMerge, p) == Get(sequential, p) {
        forall p ensures p in viaMerge <==> p in sequential { assert Get(viaMerge, p) == Get(sequential, p); }
        forall p | p in viaMerge ensures viaMerge[p] == sequential[p] { assert Get(viaMerge, p) == Get(sequential, p); }
      }
    }
  }

  /** The documented rule "route-level takes precedence" fails on the smallest such conflict. */
  lemma RouteRemovalCanLose()
    ensures var route, backend := Some(Mutation([], ["a"])), Some(Mutation([Field("a", "1")], []));
            exists merged :: IsMerge(route, backend, merged) && After(merged, "a", None, s => s) == Some("1")
  {
    var route, backend := Some(Mutation([], ["a"])), Some(Mutation([Field("a", "1")], []));
    var merged := Some(Mutation([Field("a", "1")], ["a"]));
    assert IsMerge(route, backend, merged);
  }
}
