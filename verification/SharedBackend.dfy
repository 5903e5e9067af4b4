/** The MCP proxy Backend that all MCPRoutes of a namespace share (internal/controller/mcp_route.go,
    controller.go): created by any reconcile, removed by the last deletion. One step is one API
    call; reconciles of the namespace are serialised, and users act between any two steps. */
module SharedBackend {
  import opened Text

  const SHARED := "ai-eg-mcp-proxy"

  /** `version` changes with every change of the object; `owner` is the controller owner's UID. */
  datatype Backend = Backend(version: nat, managed: bool, owner: Option<nat>)

  /** `synced`: the route completed a sync that no outside deletion of the Backend has undone since. */
  datatype Route = Route(uid: nat, deleting: bool, finalizer: bool, synced: bool)

  /** Where the one running reconcile stands. `intact`: the Backend it made sure of has not been
      deleted from outside meanwhile. */
  datatype Pc =
    | Idle
    | EnsureGet(name: string, uid: nat)
    | EnsureCreate(name: string, uid: nat)
    | LegacyGet(name: string, uid: nat, intact: bool)
    | LegacyDelete(name: string, uid: nat, intact: bool, read: nat)
    | Syncing(name: string, uid: nat, intact: bool)
    | CleanupList(name: string)
    | CleanupGet(name: string)
    | CleanupDelete(name: string, read: nat)
    | DropFinalizer(name: string)

  datatype State = State(ns: string, routes: map<string, Route>, backends: map<string, Backend>, pc: Pc, next: nat)

  datatype Event =
    | UserCreatesRoute(name: string)
    | UserDeletesRoute(name: string)
    | UserCreatesBackend(name: string, managed: bool, owner: Option<nat>)
    | UserEditsBackend(name: string, managed: bool, owner: Option<nat>)
    | UserDeletesBackend(name: string)
    | Start(name: string, ok: bool)  // a reconcile is picked up; `ok`: adding the finalizer succeeds
    | Call(ok: bool, lost: bool)     // the running reconcile's next API call; a failed one may have taken effect

  function LegacyName(ns: string, route: string): string { ns + "-" + route + "-mcp-proxy" }

  function AfterOutsideDeletion(pc: Pc): Pc {
    match pc
    case LegacyGet(n, u, _) => LegacyGet(n, u, false)
    case LegacyDelete(n, u, _, read) => LegacyDelete(n, u, false, read)
    case Syncing(n, u, _) => Syncing(n, u, false)
    case _ => pc
  }

  function Unsynced(routes: map<string, Route>): map<string, Route> {
    map n | n in routes :: routes[n].(synced := false)
  }

  function PutBackend(s: State, name: string, managed: bool, owner: Option<nat>): State {
    s.(backends := s.backends[name := Backend(s.next, managed, owner)], next := s.next + 1)
  }

  function User(s: State, e: Event): State {
    match e
    case UserCreatesRoute(name) =>
      if name in s.routes then s else
        s.(routes := s.routes[name := Route(s.next, false, false, false)], next := s.next + 1)
    case UserDeletesRoute(name) =>
      if name !in s.routes then s
      else if s.routes[name].finalizer then s.(routes := s.routes[name := s.routes[name].(deleting := true)])
      else s.(routes := s.routes - {name})
    case UserCreatesBackend(name, managed, owner) =>
      if name in s.backends then s else PutBackend(s, name, managed, owner)
    case UserEditsBackend(name, managed, owner) =>
      if name !in s.backends then s else PutBackend(s, name, managed, owner)
    case UserDeletesBackend(name) =>
      if name !in s.backends then s
      else if name != SHARED then s.(backends := s.backends - {name})
      else s.(backends := s.backends - {name}, routes := Unsynced(s.routes), pc := AfterOutsideDeletion(s.pc))
    case _ => s
  }

  /** `handleFinalizer`: a live route gets the finalizer (or not) and is synced; a deleting one with
      the finalizer is cleaned up; any other is left. */
  function Begin(s: State, name: string, ok: bool): State {
    if !s.pc.Idle? || name !in s.routes then s else
      var r := s.routes[name];
      if !r.deleting then
        s.(routes := if ok then s.routes[name := r.(finalizer := true)] else s.routes, pc := EnsureGet(name, r.uid))
      else if r.finalizer then s.(pc := CleanupList(name))
      else s
  }

  predicate OtherLive(routes: map<string, Route>, name: string) {
    exists n :: n in routes && n != name && !routes[n].deleting
  }

  /** The running reconcile's next API call. */
  function Next(s: State, ok: bool, lost: bool): State {
    var effect := ok || lost;
    match s.pc
    case Idle => s
    case EnsureGet(n, u) =>
      if !ok then s.(pc := Idle)
      else if SHARED in s.backends then s.(pc := LegacyGet(n, u, true))
      else s.(pc := EnsureCreate(n, u))
    case EnsureCreate(n, u) =>
      var next := if ok then LegacyGet(n, u, true) else Idle;
      if SHARED in s.backends || !effect then s.(pc := next)  // AlreadyExists counts as success
      else PutBackend(s, SHARED, true, None).(pc := next)
    case LegacyGet(n, u, intact) =>
      var old' := LegacyName(s.ns, n);
      if old' == SHARED || !ok || old' !in s.backends || s.backends[old'].owner != Some(u)
      then s.(pc := Syncing(n, u, intact))
      else s.(pc := LegacyDelete(n, u, intact, s.backends[old'].version))
    case LegacyDelete(n, u, intact, _) =>
      s.(backends := if effect then s.backends - {LegacyName(s.ns, n)} else s.backends, pc := Syncing(n, u, intact))
    case Syncing(n, u, intact) =>
      var done := ok && intact && n in s.routes && s.routes[n].uid == u;
      s.(routes := if done then s.routes[n := s.routes[n].(synced := true)] else s.routes, pc := Idle)
    case CleanupList(n) =>
      if !ok || OtherLive(s.routes, n) then s.(pc := DropFinalizer(n)) else s.(pc := CleanupGet(n))
    case CleanupGet(n) =>
      if !ok || SHARED !in s.backends || !s.backends[SHARED].managed then s.(pc := DropFinalizer(n))
      else s.(pc := CleanupDelete(n, s.backends[SHARED].version))
    case CleanupDelete(n, _) =>
      s.(backends := if effect then s.backends - {SHARED} else s.backends, pc := DropFinalizer(n))
    case DropFinalizer(n) =>
      s.(routes := if effect then s.routes - {n} else s.routes, pc := Idle)
  }

  function Step(s: State, e: Event): State {
    match e
    case Start(name, ok) => Begin(s, name, ok)
    case Call(ok, lost) => Next(s, ok, lost)
    case _ => User(s, e)
  }

  function Run(s: State, events: seq<Event>): State {
    if events == [] then s else Step(Run(s, events[..|events| - 1]), events[|events| - 1])
  }

  /* ---- The invariant ---- */

  /** Every live route that completed a sync has its Backend. */
  ghost predicate Served(s: State) {
    forall n :: n in s.routes && !s.routes[n].deleting && s.routes[n].synced ==> SHARED in s.backends
  }

  /** What the running reconcile may rely on. */
  ghost predicate PcOk(s: State) {
    match s.pc
    case LegacyGet(_, _, intact) => intact ==> SHARED in s.backends
    case LegacyDelete(n, u, intact, read) =>
      var name := LegacyName(s.ns, n);
      && (intact ==> SHARED in s.backends) && name != SHARED && read < s.next
      && (name in s.backends && s.backends[name].version == read ==> s.backends[name].owner == Some(u))
    case Syncing(_, _, intact) => intact ==> SHARED in s.backends
    case CleanupList(n) => n in s.routes && s.routes[n].deleting && s.routes[n].finalizer
    case CleanupGet(n) => NoneServed(s)
    case CleanupDelete(_, read) =>
      NoneServed(s) && read < s.next
      && (SHARED in s.backends && s.backends[SHARED].version == read ==> s.backends[SHARED].managed)
    case _ => true
  }

  /** No live route has completed a sync. */
  ghost predicate NoneServed(s: State) {
    forall n :: n in s.routes && !s.routes[n].deleting ==> !s.routes[n].synced
  }

  ghost predicate Fresh(s: State) {
    forall n :: n in s.backends ==> s.backends[n].version < s.next
  }

  ghost predicate Inv(s: State) { Served(s) && PcOk(s) && Fresh(s) }

  lemma UserKeepsInv(s: State, e: Event)
    requires Inv(s) && !e.Start? && !e.Call?
    ensures Inv(Step(s, e))
  {
  }

  lemma BeginKeepsInv(s: State, name: string, ok: bool)
    requires Inv(s)
    ensures Inv(Begin(s, name, ok))
  {
  }

  lemma NextKeepsInv(s: State, ok: bool, lost: bool)
    requires Inv(s)
    ensures Inv(Next(s, ok, lost))
  {
  }

  /** In every interleaving of user actions and single API calls, failing ones included, a live
      route that has completed a sync has the shared Backend. */
  lemma {:induction false} SyncedRoutesAreServed(s: State, events: seq<Event>)
    requires Inv(s)
    ensures Inv(Run(s, events)) && Served(Run(s, events))
  {
    if events != [] {
      var before := Run(s, events[..|events| - 1]);
      SyncedRoutesAreServed(s, events[..|events| - 1]);
      match events[|events| - 1]
      case Start(name, ok) => BeginKeepsInv(before, name, ok);
      case Call(ok, lost) => NextKeepsInv(before, ok, lost);
      case _ => UserKeepsInv(before, events[|events| - 1]);
    }
  }

  /** An empty namespace with any user-made Backends is a start. */
  lemma InitialInv(ns: string, backends: map<string, Backend>, next: nat)
    requires forall n :: n in backends ==> backends[n].version < next
    ensures Inv(State(ns, map[], backends, Idle, next))
  {
  }

  /* ---- What the two clean-ups delete ---- */

  /** In any run, the shared Backend goes away in two ways only: a user deletes it, or the clean-up
      of a deleted route does, at a moment when no live route has completed a sync. The legacy
      clean-up never takes it, not even for the route whose legacy name is the shared name. */
  lemma OnlyCleanupRemovesShared(s: State, events: seq<Event>, e: Event)
    requires Inv(s)
    requires SHARED in Run(s, events).backends && SHARED !in Run(s, events + [e]).backends
    ensures e == UserDeletesBackend(SHARED)
            || (e.Call? && (e.ok || e.lost) && Run(s, events).pc.CleanupDelete? && NoneServed(Run(s, events)))
  {
    assert (events + [e])[..|events|] == events;
    SyncedRoutesAreServed(s, events);
  }

  /** In any run, when a clean-up is about to delete and the object is still the one it read, then the
      shared Backend carries the managed-by label, and the legacy Backend is owned by the route. */
  lemma CleanupDeletesWhatItRead(s: State, events: seq<Event>)
    requires Inv(s)
    ensures var t := Run(s, events);
            && (t.pc.CleanupDelete? && SHARED in t.backends && t.backends[SHARED].version == t.pc.read ==>
                  t.backends[SHARED].managed)
            && (t.pc.LegacyDelete? && LegacyName(t.ns, t.pc.name) in t.backends
                && t.backends[LegacyName(t.ns, t.pc.name)].version == t.pc.read
                ==> t.backends[LegacyName(t.ns, t.pc.name)].owner == Some(t.pc.uid))
  {
    SyncedRoutesAreServed(s, events);
  }

  /* ---- What a reconcile that nothing disturbs ends with ---- */

  /** A reconcile of the route and `n` API calls that succeed. */
  function Undisturbed(name: string, n: nat): seq<Event> {
    [Start(name, true)] + seq(n, i => Call(true, false))
  }

  /** Each state is the one before after a call that succeeds. */
  ghost predicate Path(ts: seq<State>) {
    ts != [] && forall i :: 0 < i < |ts| ==> ts[i] == Next(ts[i - 1], true, false)
  }

  lemma {:induction false} PathRuns(s: State, name: string, ts: seq<State>)
    requires Path(ts) && ts[0] == Begin(s, name, true)
    ensures Run(s, Undisturbed(name, |ts| - 1)) == ts[|ts| - 1]
  {
    var n := |ts| - 1;
    if n == 0 {
      assert Undisturbed(name, 0) == [Start(name, true)] && [Start(name, true)][..0] == [];
    } else {
      PathRuns(s, name, ts[..n]);
      assert Undisturbed(name, n)[..n] == Undisturbed(name, n - 1);
    }
  }

  /** A clean-up that completes ends with the route gone, and with the shared Backend gone exactly if no
      other route of the namespace is live and the Backend carries the label. Nothing else changes. */
  lemma CleanupCompletes(s: State, name: string) returns (n: nat)
    requires s.pc.Idle? && name in s.routes && s.routes[name].deleting && s.routes[name].finalizer
    ensures var last := forall r :: r in s.routes && r != name ==> s.routes[r].deleting;
            var labelled := "ai-eg-mcp-proxy" in s.backends && s.backends["ai-eg-mcp-proxy"].managed;
            && n == (if !last then 2 else if !labelled then 3 else 4)
            && Run(s, Undisturbed(name, n))
               == State(s.ns, s.routes - {name},
                        if last && labelled then s.backends - {"ai-eg-mcp-proxy"} else s.backends, Idle, s.next)
  {
    var ts := CleanupPath(s, name);
    PathRuns(s, name, ts);
    n := |ts| - 1;
  }

  lemma CleanupPath(s: State, name: string) returns (ts: seq<State>)
    requires s.pc.Idle? && name in s.routes && s.routes[name].deleting && s.routes[name].finalizer
    ensures Path(ts) && ts[0] == Begin(s, name, true)
    ensures var last := !OtherLive(s.routes, name);
            var labelled := SHARED in s.backends && s.backends[SHARED].managed;
            && |ts| == (if !last then 3 else if !labelled then 4 else 5)
            && ts[|ts| - 1] == State(s.ns, s.routes - {name},
                                     if last && labelled then s.backends - {SHARED} else s.backends, Idle, s.next)
  {
    var listing, getting, dropping
      := s.(pc := CleanupList(name)), s.(pc := CleanupGet(name)), s.(pc := DropFinalizer(name));
    if OtherLive(s.routes, name) {
      ts := [listing, dropping, Next(dropping, true, false)];
    } else if SHARED !in s.backends || !s.backends[SHARED].managed {
      ts := [listing, getting, dropping, Next(dropping, true, false)];
    } else {
      var deleting := s.(pc := CleanupDelete(name, s.backends[SHARED].version));
      dropping := dropping.(backends := s.backends - {SHARED});
      ts := [listing, getting, deleting, dropping, Next(dropping, true, false)];
    }
  }

  /** The Backend a sync makes sure of: the one that is there, else a labelled one without owner. */
  function Ensured(s: State): map<string, Backend> {
    if "ai-eg-mcp-proxy" in s.backends then s.backends
    else s.backends["ai-eg-mcp-proxy" := Backend(s.next, true, None)]
  }

  /** The route's own Backend of the old naming scheme: owned by it, and not the shared one. */
  predicate HasLegacy(s: State, name: string)
    requires name in s.routes
  {
    var old' := s.ns + "-" + name + "-mcp-proxy";
    old' != "ai-eg-mcp-proxy" && old' in s.backends && s.backends[old'].owner == Some(s.routes[name].uid)
  }

  /** A sync of a live route that completes ends with the finalizer set, the shared Backend there and the
      route's legacy Backend gone; other Backends and routes are as they were. */
  lemma SyncCompletes(s: State, name: string) returns (n: nat)
    requires s.pc.Idle? && name in s.routes && !s.routes[name].deleting
    ensures var t := Run(s, Undisturbed(name, n));
            && n == 3 + (if "ai-eg-mcp-proxy" in s.backends then 0 else 1) + (if HasLegacy(s, name) then 1 else 0)
            && t.pc.Idle? && t.ns == s.ns
            && t.routes == s.routes[name := Route(s.routes[name].uid, false, true, true)]
            && t.backends == (if HasLegacy(s, name) then Ensured(s) - {s.ns + "-" + name + "-mcp-proxy"}
                              else Ensured(s))
  {
    var head := EnsurePath(s, name);
    var tail := LegacyPath(s, name, head[|head| - 1]);
    PathRuns(s, name, head + tail[1..]);
    n := |head| + |tail| - 2;
  }

  /** The first half of a sync: the shared Backend. */
  lemma EnsurePath(s: State, name: string) returns (ts: seq<State>)
    requires s.pc.Idle? && name in s.routes && !s.routes[name].deleting
    ensures Path(ts) && ts[0] == Begin(s, name, true)
    ensures |ts| == if SHARED in s.backends then 2 else 3
    ensures ts[|ts| - 1]
         == State(s.ns, s.routes[name := s.routes[name].(finalizer := true)], Ensured(s),
                  LegacyGet(name, s.routes[name].uid, true), if SHARED in s.backends then s.next else s.next + 1)
  {
    var got := Begin(s, name, true);
    if SHARED in s.backends {
      ts := [got, Next(got, true, false)];
    } else {
      var creating := got.(pc := EnsureCreate(name, s.routes[name].uid));
      ts := [got, creating, Next(creating, true, false)];
    }
  }

  /** The second half: the legacy Backend, and the rest of the sync. */
  lemma LegacyPath(s: State, name: string, t: State) returns (ts: seq<State>)
    requires name in s.routes && name in t.routes && t.ns == s.ns && t.routes[name].uid == s.routes[name].uid
    requires t.backends == Ensured(s) && t.pc == LegacyGet(name, s.routes[name].uid, true)
    ensures Path(ts) && ts[0] == t && |ts| == if HasLegacy(s, name) then 4 else 3
    ensures ts[|ts| - 1]
         == State(s.ns, t.routes[name := t.routes[name].(synced := true)],
                  if HasLegacy(s, name) then Ensured(s) - {s.ns + "-" + name + "-mcp-proxy"} else Ensured(s),
                  Idle, t.next)
  {
    var uid, old' := s.routes[name].uid, LegacyName(s.ns, name);
    var syncing := t.(pc := Syncing(name, uid, true));
    if HasLegacy(s, name) {
      var deleting := t.(pc := LegacyDelete(name, uid, true, s.backends[old'].version));
      syncing := syncing.(backends := Ensured(s) - {old'});
      ts := [t, deleting, syncing, Next(syncing, true, false)];
    } else {
      ts := [t, syncing, Next(syncing, true, false)];
    }
  }

  /* ---- Exactly when a clean-up deletes what is not the controller's ---- */

  function At(s: State, name: string): Option<Backend> { if name in s.backends then Some(s.backends[name]) else None }

  /** The event creates or edits the Backend, and takes effect. */
  predicate Writes(s: State, e: Event, name: string) {
    (e.UserCreatesBackend? && e.name == name && name !in s.backends)
    || (e.UserEditsBackend? && e.name == name && name in s.backends)
  }

  predicate Removes(s: State, e: Event, name: string) { e == UserDeletesBackend(name) && name in s.backends }

  ghost predicate NoCalls(events: seq<Event>) { forall i :: 0 <= i < |events| ==> !events[i].Call? }

  /** The last event of the list that takes effect on the Backend. */
  function LastChange(s: State, events: seq<Event>, name: string): Option<Event> {
    if events == [] then None else
      var front, e := events[..|events| - 1], events[|events| - 1];
      var before := Run(s, front);
      if Writes(before, e, name) || Removes(before, e, name) then Some(e) else LastChange(s, front, name)
  }

  /** One event that is no API call, seen from one Backend. */
  lemma BackendStep(s: State, e: Event, name: string)
    requires !e.Call?
    ensures At(Step(s, e), name) ==
              if Writes(s, e, name) then Some(Backend(s.next, e.managed, e.owner))
              else if Removes(s, e, name) then None
              else At(s, name)
  {
  }

  /** The Backend's label and owner, after events that are no API calls, are those its last change
      gave it. */
  ghost predicate LooksLike(b: Option<Backend>, start: Option<Backend>, change: Option<Event>) {
    match change
    case None => b == start
    case Some(UserCreatesBackend(_, managed, owner)) => b.Some? && b.value.managed == managed && b.value.owner == owner
    case Some(UserEditsBackend(_, managed, owner)) => b.Some? && b.value.managed == managed && b.value.owner == owner
    case Some(_) => b.None?
  }

  lemma {:induction false} AfterUsers(s: State, events: seq<Event>, name: string)
    requires NoCalls(events)
    ensures LooksLike(At(Run(s, events), name), At(s, name), LastChange(s, events, name))
    decreases |events|
  {
    if events != [] {
      AfterUsers(s, events[..|events| - 1], name);
      BackendStep(Run(s, events[..|events| - 1]), events[|events| - 1], name);
    }
  }

  /** What happens between two API calls of a reconcile does not move it. */
  lemma {:induction false} PcKept(s: State, events: seq<Event>)
    requires NoCalls(events) && !s.pc.Idle?
    ensures Run(s, events).ns == s.ns && (Run(s, events).pc == s.pc || Run(s, events).pc == AfterOutsideDeletion(s.pc))
    decreases |events|
  {
    if events != [] {
      PcKept(s, events[..|events| - 1]);
    }
  }

  predicate WritesUnlabelled(change: Option<Event>) {
    match change
    case Some(UserCreatesBackend(_, managed, _)) => !managed
    case Some(UserEditsBackend(_, managed, _)) => !managed
    case _ => false
  }

  predicate WritesUnowned(change: Option<Event>, uid: nat) {
    match change
    case Some(UserCreatesBackend(_, _, owner)) => owner != Some(uid)
    case Some(UserEditsBackend(_, _, owner)) => owner != Some(uid)
    case _ => false
  }

  /** The clean-up of the last route, from the Get that found the labelled Backend on, whatever
      happens before the Delete: the Delete takes a Backend without the label exactly when it takes
      effect and the last effective change made in between was to write one without the label. */
  lemma UnlabelledDeletedIff(s: State, mid: seq<Event>, ok: bool, lost: bool)
    requires s.pc.CleanupGet? && SHARED in s.backends && s.backends[SHARED].managed && NoCalls(mid)
    ensures var got := Step(s, Call(true, false));
            var t := Run(got, mid);
            && (SHARED in t.backends && SHARED !in Step(t, Call(ok, lost)).backends && !t.backends[SHARED].managed
                <==> (ok || lost) && WritesUnlabelled(LastChange(got, mid, SHARED)))
  {
    var got := Step(s, Call(true, false));
    AfterUsers(got, mid, SHARED);
    PcKept(got, mid);
    DeleteTakes(Run(got, mid), ok, lost);
  }

  /** The same for the legacy clean-up and the owner: it takes a Backend that is not the route's
      exactly when the last effective change since the Get gave it another owner, or none. */
  lemma UnownedDeletedIff(s: State, mid: seq<Event>, ok: bool, lost: bool)
    requires s.pc.LegacyGet? && LegacyName(s.ns, s.pc.name) != SHARED && NoCalls(mid)
    requires LegacyName(s.ns, s.pc.name) in s.backends
    requires s.backends[LegacyName(s.ns, s.pc.name)].owner == Some(s.pc.uid)
    ensures var name, got := LegacyName(s.ns, s.pc.name), Step(s, Call(true, false));
            var t := Run(got, mid);
            && (name in t.backends && name !in Step(t, Call(ok, lost)).backends
                && t.backends[name].owner != Some(s.pc.uid)
                <==> (ok || lost) && WritesUnowned(LastChange(got, mid, name), s.pc.uid))
  {
    var got := Step(s, Call(true, false));
    AfterUsers(got, mid, LegacyName(s.ns, s.pc.name));
    PcKept(got, mid);
    DeleteTakes(Run(got, mid), ok, lost);
  }

  /** The two Delete calls take the named Backend, whatever it has become, exactly if they take effect. */
  lemma DeleteTakes(s: State, ok: bool, lost: bool)
    ensures s.pc.CleanupDelete? ==>
              Next(s, ok, lost).backends == if ok || lost then s.backends - {SHARED} else s.backends
    ensures s.pc.LegacyDelete? ==>
              Next(s, ok, lost).backends
              == if ok || lost then s.backends - {LegacyName(s.ns, s.pc.name)} else s.backends
  {
  }

  /** Whatever users do meanwhile, the clean-up's last call takes the route exactly if it takes effect. */
  lemma DropTakesRoute(s: State, mid: seq<Event>, ok: bool, lost: bool)
    requires s.pc.DropFinalizer? && NoCalls(mid)
    ensures var t := Run(s, mid);
            && Step(t, Call(ok, lost)).pc.Idle?
            && Step(t, Call(ok, lost)).routes == if ok || lost then t.routes - {s.pc.name} else t.routes
  {
    PcKept(s, mid);
  }

  /** Such a run exists from an empty namespace: a route is created, synced and deleted, and while its
      clean-up is between Get and Delete a user takes the label off the Backend, or replaces it. */
  lemma ChangedBackendIsDeleted(ns: string)
    ensures var start := State(ns, map[], map[], Idle, 0);
            var s := Run(start, TO_CLEANUP_DELETE);
            var unlabelled := Step(s, UserEditsBackend(SHARED, false, None));
            var replaced := Step(Step(s, UserDeletesBackend(SHARED)), UserCreatesBackend(SHARED, false, None));
            && Inv(start) && s.pc.CleanupDelete?
            && SHARED in unlabelled.backends && !unlabelled.backends[SHARED].managed
            && SHARED !in Step(unlabelled, Call(true, false)).backends
            && SHARED in replaced.backends && !replaced.backends[SHARED].managed
            && SHARED !in Step(replaced, Call(true, false)).backends
  {
    WayRun(ns, 10);
    assert TO_CLEANUP_DELETE[..10] == TO_CLEANUP_DELETE;
  }

  /** Create, sync (Get, Create, legacy Get, the rest), delete, then List and Get of the clean-up. */
  const TO_CLEANUP_DELETE: seq<Event> :=
    [UserCreatesRoute("r"), Start("r", true), Call(true, false), Call(true, false), Call(true, false),
     Call(true, false), UserDeletesRoute("r"), Start("r", true), Call(true, false), Call(true, false)]

  /** The states on that way. */
  function OnTheWay(ns: string, n: nat): State {
    var routes := if n == 0 then map[] else map["r" := Route(0, n >= 7, n >= 2, n >= 6)];
    var pc := match n
      case 2 => EnsureGet("r", 0)
      case 3 => EnsureCreate("r", 0)
      case 4 => LegacyGet("r", 0, true)
      case 5 => Syncing("r", 0, true)
      case 8 => CleanupList("r")
      case 9 => CleanupGet("r")
      case 10 => CleanupDelete("r", 1)
      case _ => Idle;
    State(ns, routes, if n < 4 then map[] else map[SHARED := Backend(1, true, None)], pc,
          if n == 0 then 0 else if n < 4 then 1 else 2)
  }

  lemma WayStep(ns: string, n: nat)
    requires n < 10
    ensures Step(OnTheWay(ns, n), TO_CLEANUP_DELETE[n]) == OnTheWay(ns, n + 1)
  {
    if n >= 7 {
      assert !OtherLive(OnTheWay(ns, n).routes, "r");
    }
  }

  lemma {:induction false} WayRun(ns: string, n: nat)
    requires n <= 10
    ensures Run(OnTheWay(ns, 0), TO_CLEANUP_DELETE[..n]) == OnTheWay(ns, n)
  {
    if n > 0 {
      WayRun(ns, n - 1);
      WayStep(ns, n - 1);
      assert TO_CLEANUP_DELETE[..n][..n - 1] == TO_CLEANUP_DELETE[..n - 1];
    }
  }

  /** The legacy clean-up has such a run too: a route with a legacy Backend of its own is picked up, and
      after the Get a user takes the owner off that Backend. */
  lemma ChangedLegacyIsDeleted(ns: string)
    ensures var start, name := State(ns, map[], map[], Idle, 0), LegacyName(ns, "r");
            var s := Run(start, ToLegacyDelete(ns));
            var disowned := Step(s, UserEditsBackend(name, false, None));
            && Inv(start) && s.pc.LegacyDelete? && s.pc.name == "r"
            && name in disowned.backends && disowned.backends[name].owner != Some(s.pc.uid)
            && name !in Step(disowned, Call(true, false)).backends
  {
    LegacyRun(ns, 6);
    assert ToLegacyDelete(ns)[..6] == ToLegacyDelete(ns);
    LegacyIsNotShared(ns);
  }

  /** The route and its legacy Backend are created, the sync begins: Get, Create, then the legacy Get. */
  function ToLegacyDelete(ns: string): seq<Event> {
    [UserCreatesRoute("r"), UserCreatesBackend(LegacyName(ns, "r"), false, Some(0)), Start("r", true),
     Call(true, false), Call(true, false), Call(true, false)]
  }

  lemma LegacyIsNotShared(ns: string)
    ensures LegacyName(ns, "r") != SHARED
  {
    var name := LegacyName(ns, "r");
    assert |"-r-mcp-proxy"| == 12 && |SHARED| == 15;
    assert name == ns + ("-r" + "-mcp-proxy");
    assert name[|name| - 11] == 'r' && SHARED[|SHARED| - 11] == 'g';
  }

  function OnTheLegacyWay(ns: string, n: nat): State {
    var old' := Backend(1, false, Some(0));
    var backends := if n < 2 then map[] else if n < 5 then map[LegacyName(ns, "r") := old']
                    else map[LegacyName(ns, "r") := old'][SHARED := Backend(2, true, None)];
    var pc := match n
      case 3 => EnsureGet("r", 0)
      case 4 => EnsureCreate("r", 0)
      case 5 => LegacyGet("r", 0, true)
      case 6 => LegacyDelete("r", 0, true, 1)
      case _ => Idle;
    State(ns, if n == 0 then map[] else map["r" := Route(0, false, n >= 3, false)], backends, pc,
          if n < 2 then n else if n < 5 then 2 else 3)
  }

  lemma LegacyStep(ns: string, n: nat)
    requires n < 6
    ensures Step(OnTheLegacyWay(ns, n), ToLegacyDelete(ns)[n]) == OnTheLegacyWay(ns, n + 1)
  {
    LegacyIsNotShared(ns);
  }

  lemma {:induction false} LegacyRun(ns: string, n: nat)
    requires n <= 6
    ensures Run(OnTheLegacyWay(ns, 0), ToLegacyDelete(ns)[..n]) == OnTheLegacyWay(ns, n)
  {
    if n > 0 {
      LegacyRun(ns, n - 1);
      LegacyStep(ns, n - 1);
      assert ToLegacyDelete(ns)[..n][..n - 1] == ToLegacyDelete(ns)[..n - 1];
    }
  }
}
