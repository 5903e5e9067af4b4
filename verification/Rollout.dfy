/** The sidecar rollout loop: `annotateGatewayPods` (internal/controller/gateway.go) decides from
    live pods and workload status whether to patch the workload templates; Kubernetes then replaces
    the pods, and every new pod passes through the webhook again. */
module Rollout {
  import opened Text
  import E = ExtProc

  /** The inputs of the loop, fixed during a run. `attached`: the webhook finds a route;
      `effective`: some route is not being deleted. */
  datatype Config = Config(b: E.Builder, g: E.Gateway, input: E.Input, effective: bool, attached: bool,
                           hasLegacy: bool, hasBundle: bool, desiredHash: string)

  /** A pod of workload `owner`, created from its template revision `rev`. */
  datatype Pod = Pod(owner: nat, rev: nat, terminating: bool, spec: E.PodSpec)

  /** A Deployment or DaemonSet: its template with the two annotations this loop writes, and the
      status its Kubernetes controller last reported. */
  datatype Workload = Workload(daemon: bool, template: E.PodSpec, hash: Option<string>, uuid: Option<string>, rev: nat,
                               generation: nat, observed: nat, replicas: nat, updated: nat)

  /** The Deployments first, then the DaemonSets. */
  datatype State = State(pods: seq<Pod>, workloads: seq<Workload>)

  /** What the webhook makes of a new pod. */
  function Admit(cfg: Config, template: E.PodSpec): E.PodSpec {
    if cfg.attached && (cfg.hasLegacy || cfg.hasBundle)
    then E.Mutated(cfg.b, cfg.g, template, cfg.input, cfg.hasLegacy, cfg.hasBundle)
    else template
  }

  predicate Check(cfg: Config, spec: E.PodSpec) {
    E.HasSideCar(spec, cfg.b.asSideCar, cfg.b.Image(cfg.input), cfg.b.logLevel, cfg.input.needMCP)
  }

  /** The pod is what the reconciler wants: a current sidecar, or none if no route is effective. */
  predicate Good(cfg: Config, p: Pod) { Check(cfg, p.spec) == cfg.effective }

  /* ---- The reconciler's decision ---- */

  predicate RollingOut(w: Workload) {
    (w.daemon ==> w.observed != 0) && (w.observed < w.generation || w.replicas > w.updated)
  }

  predicate InProgress(ws: seq<Workload>) { exists i :: 0 <= i < |ws| && RollingOut(ws[i]) }

  /** What the loop notes about a pod: nothing if it is terminating, else whether it has the sidecar. */
  function Mark(cfg: Config, p: Pod): Option<bool> { if p.terminating then None else Some(Check(cfg, p.spec)) }

  predicate Seen(cfg: Config, pods: seq<Pod>, has: bool) {
    pods != [] && (Seen(cfg, pods[..|pods| - 1], has) || Mark(cfg, pods[|pods| - 1]) == Some(has))
  }

  lemma {:induction false} SeenIff(cfg: Config, pods: seq<Pod>, has: bool)
    ensures Seen(cfg, pods, has) <==> exists i :: 0 <= i < |pods| && Mark(cfg, pods[i]) == Some(has)
  {
    if pods != [] {
      var front := pods[..|pods| - 1];
      SeenIff(cfg, front, has);
      assert forall i :: 0 <= i < |front| ==> front[i] == pods[i];
    }
  }

  lemma {:induction false} SeenPrefix(cfg: Config, pods: seq<Pod>, n: nat, has: bool)
    requires n <= |pods| && Seen(cfg, pods[..n], has)
    ensures Seen(cfg, pods, has)
    decreases |pods| - n
  {
    if n < |pods| {
      assert pods[..n + 1][..n] == pods[..n];
      SeenPrefix(cfg, pods, n + 1, has);
    } else {
      assert pods[..n] == pods;
    }
  }

  predicate NeedsState(cfg: Config, pods: seq<Pod>) {
    var with, without := Seen(cfg, pods, true), Seen(cfg, pods, false);
    cfg.effective != (with && !without) || (with && without)
  }

  predicate NeedsHash(cfg: Config, w: Workload) {
    cfg.effective && cfg.desiredHash != "" && Deref(w.hash, "") != cfg.desiredHash
  }

  /** The template patch, asked for on what was listed and made on what is there now; a fresh uuid or
      a new hash always changes the template. */
  function PatchOf(cfg: Config, uuid: string, needsState: bool, listed: Workload, now: Workload): Workload {
    if !needsState && !NeedsHash(cfg, listed) then now else
      now.(rev := now.rev + 1, generation := now.generation + 1,
           uuid := if needsState then Some(uuid) else now.uuid,
           hash := if NeedsHash(cfg, listed) then Some(cfg.desiredHash) else now.hash)
  }

  function Patched(cfg: Config, uuid: string, needsState: bool, w: Workload): Workload {
    PatchOf(cfg, uuid, needsState, w, w)
  }

  /** The first `k` workloads patched as the listing asks for. */
  function PatchedListed(cfg: Config, uuid: string, needsState: bool, listed: seq<Workload>, ws: seq<Workload>, k: nat)
    : seq<Workload>
    requires |listed| == |ws|
  {
    seq(|ws|, i requires 0 <= i < |ws| => if i < k then PatchOf(cfg, uuid, needsState, listed[i], ws[i]) else ws[i])
  }

  /** The first `k` workloads patched as needed: a failing Patch call ends the loop early. */
  function PatchedFirst(cfg: Config, uuid: string, needsState: bool, ws: seq<Workload>, k: nat): seq<Workload> {
    seq(|ws|, i requires 0 <= i < |ws| => if i < k then Patched(cfg, uuid, needsState, ws[i]) else ws[i])
  }

  /** One Reconcile over a listing of pods and workloads, stopped after `k` workloads. */
  function Reconciled(cfg: Config, pods: seq<Pod>, ws: seq<Workload>, uuid: string, k: nat): seq<Workload> {
    if InProgress(ws) then ws else PatchedFirst(cfg, uuid, NeedsState(cfg, pods), ws, k)
  }

  /** The exact meaning of the flags: a state rollout is asked for unless every live pod is as
      wanted and, if a route is effective, there is one. */
  lemma NeedsStateIff(cfg: Config, pods: seq<Pod>)
    ensures NeedsState(cfg, pods) <==>
              || (exists i :: 0 <= i < |pods| && !pods[i].terminating && !Good(cfg, pods[i]))
              || (cfg.effective && forall i :: 0 <= i < |pods| ==> pods[i].terminating)
  {
    SeenIff(cfg, pods, true);
    SeenIff(cfg, pods, false);
  }

  /* ---- What a patch writes, spelled out ---- */

  /** A state rollout is asked for: a live pod has the sidecar and should not, or should and has not, or
      it should be somewhere and no pod is live. */
  ghost predicate StateAsked(cfg: Config, pods: seq<Pod>) {
    || (exists p :: 0 <= p < |pods| && !pods[p].terminating
                    && E.HasSideCar(pods[p].spec, cfg.b.asSideCar, cfg.b.Image(cfg.input), cfg.b.logLevel,
                                    cfg.input.needMCP) != cfg.effective)
    || (cfg.effective && forall p :: 0 <= p < |pods| ==> pods[p].terminating)
  }

  /** A hash rollout is asked for: a route is effective and the template does not carry the hash. */
  predicate HashAsked(cfg: Config, w: Workload) {
    && cfg.effective && cfg.desiredHash != ""
    && (if w.hash.Some? then w.hash.value != cfg.desiredHash else true)
  }

  /** The first `k` workloads carry the uuid exactly if a state rollout is asked for, and the hash exactly
      if one is asked for on their listing; their revision goes up exactly if either is; nothing else
      of them changes but the generation, and the others do not change at all. */
  ghost predicate Annotated(cfg: Config, pods: seq<Pod>, listed: seq<Workload>, uuid: string, k: nat,
                            before: seq<Workload>, after: seq<Workload>) {
    && |after| == |before| == |listed|
    && (forall i :: 0 <= i < |after| && i >= k ==> after[i] == before[i])
    && forall i :: 0 <= i < |after| && i < k ==>
         && after[i].uuid == (if StateAsked(cfg, pods) then Some(uuid) else before[i].uuid)
         && after[i].hash == (if HashAsked(cfg, listed[i]) then Some(cfg.desiredHash) else before[i].hash)
         && after[i].rev == before[i].rev + (if StateAsked(cfg, pods) || HashAsked(cfg, listed[i]) then 1 else 0)
         && after[i].generation - before[i].generation == after[i].rev - before[i].rev
         && after[i] == before[i].(uuid := after[i].uuid, hash := after[i].hash, rev := after[i].rev,
                                   generation := after[i].generation)
  }

  lemma AskedIff(cfg: Config, pods: seq<Pod>, w: Workload)
    ensures StateAsked(cfg, pods) <==> NeedsState(cfg, pods)
    ensures HashAsked(cfg, w) <==> NeedsHash(cfg, w)
  {
    NeedsStateIff(cfg, pods);
  }

  lemma PatchedIsAnnotated(cfg: Config, pods: seq<Pod>, listed: seq<Workload>, uuid: string, k: nat,
                           before: seq<Workload>)
    requires |listed| == |before|
    ensures Annotated(cfg, pods, listed, uuid, k, before,
                      PatchedListed(cfg, uuid, NeedsState(cfg, pods), listed, before, k))
  {
    forall i | 0 <= i < |listed| ensures HashAsked(cfg, listed[i]) <==> NeedsHash(cfg, listed[i]) {
      AskedIff(cfg, pods, listed[i]);
    }
    if listed == [] {
      NeedsStateIff(cfg, pods);
    } else {
      AskedIff(cfg, pods, listed[0]);
    }
  }

  /** With a fresh uuid and a current listing a new revision is a changed annotation, and conversely: no
      rollout is counted that the template does not show, and none is hidden. */
  lemma RevisionIsAnnotation(cfg: Config, uuid: string, needsState: bool, listed: Workload, now: Workload)
    requires now.uuid != Some(uuid) && listed.hash == now.hash
    ensures var w := PatchOf(cfg, uuid, needsState, listed, now);
            && (w.rev != now.rev <==> w.uuid != now.uuid || w.hash != now.hash)
            && (needsState ==> w.uuid == Some(uuid))
  {
  }

  /* ---- The loop of the source ---- */

  method IsRolloutInProgress(deployments: seq<Workload>, daemonSets: seq<Workload>) returns (r: bool)
    requires (forall i :: 0 <= i < |deployments| ==> !deployments[i].daemon)
             && (forall i :: 0 <= i < |daemonSets| ==> daemonSets[i].daemon)
    ensures r <==> InProgress(deployments + daemonSets)
  {
    var all := deployments + daemonSets;
    for i := 0 to |deployments|
      invariant forall j :: 0 <= j < i ==> !RollingOut(all[j])
    {
      var dep := deployments[i];
      assert all[i] == dep;
      if dep.observed < dep.generation {
        return true;
      }
      if dep.replicas > dep.updated {
        return true;
      }
    }
    for i := 0 to |daemonSets|
      invariant forall j :: 0 <= j < |deployments| + i ==> !RollingOut(all[j])
    {
      var ds := daemonSets[i];
      assert all[|deployments| + i] == ds;
      if ds.observed == 0 {
        continue;
      }
      if ds.observed < ds.generation {
        return true;
      }
      if ds.replicas > ds.updated {
        return true;
      }
    }
    return false;
  }

  method LookAtPod(cfg: Config, p: Pod) returns (has: bool)
    requires !p.terminating
    ensures Mark(cfg, p) == Some(has)
  {
    has := E.CheckPodHasSideCar(p.spec, cfg.b.asSideCar, cfg.b.Image(cfg.input), cfg.b.logLevel, cfg.input.needMCP);
  }

  method LookAtPods(cfg: Config, pods: seq<Pod>) returns (with: bool, without: bool)
    ensures with <==> Seen(cfg, pods, true)
    ensures without <==> Seen(cfg, pods, false)
  {
    with, without := false, false;
    for i := 0 to |pods|
      invariant with <==> Seen(cfg, pods[..i], true)
      invariant without <==> Seen(cfg, pods[..i], false)
    {
      assert pods[..i + 1][..i] == pods[..i];
      if pods[i].terminating {
        continue;
      }
      var has := LookAtPod(cfg, pods[i]);
      if has {
        with := true;
      } else {
        without := true;
      }
      if with && without {
        SeenPrefix(cfg, pods, i + 1, true);
        SeenPrefix(cfg, pods, i + 1, false);
        return;
      }
    }
    assert pods[..|pods|] == pods;
  }

  /** The workloads behind an API whose n-th Patch call may fail, with or without effect. */
  class Cluster {
    var workloads: seq<Workload>
    const deployments: nat
    const fails: nat -> bool
    const lost: nat -> bool

    constructor (deps: seq<Workload>, daemonSets: seq<Workload>, fails: nat -> bool, lost: nat -> bool)
      requires (forall i :: 0 <= i < |deps| ==> !deps[i].daemon)
               && (forall i :: 0 <= i < |daemonSets| ==> daemonSets[i].daemon)
      ensures workloads == deps + daemonSets && deployments == |deps| && this.fails == fails && this.lost == lost
      ensures Partitioned(workloads)
    {
      this.workloads, this.deployments, this.fails, this.lost := deps + daemonSets, |deps|, fails, lost;
    }

    /** The Deployments first, then the DaemonSets. */
    ghost predicate Partitioned(ws: seq<Workload>) {
      && deployments <= |ws|
      && forall i :: 0 <= i < |ws| ==> (ws[i].daemon <==> i >= deployments)
    }

    /** Pods and workloads as they were listed, patches on the workloads as they are. A completed call
        has patched every workload that needed it; a failed one the first `k`, none if annotating a
        pod failed. */
    method AnnotateGatewayPods(cfg: Config, pods: seq<Pod>, listed: seq<Workload>, uuid: string)
      returns (requeue: bool, ok: bool, ghost k: nat)
      requires Partitioned(listed) && |listed| == |workloads|
      modifies this
      ensures (requeue <==> InProgress(listed)) && k <= |workloads| == |listed|
      ensures workloads == PatchedListed(cfg, uuid, NeedsState(cfg, pods), listed, old(workloads), k)
      ensures Annotated(cfg, pods, listed, uuid, k, old(workloads), workloads)
      ensures requeue ==> ok && k == 0
      ensures ok && !requeue ==> k == |workloads|
      ensures (forall n :: !fails(n)) ==> ok
    {
      k := 0;
      ghost var before := workloads;
      ghost var wanted := NeedsState(cfg, pods);
      assert PatchedListed(cfg, uuid, wanted, listed, before, 0) == before;
      requeue := IsRolloutInProgress(listed[..deployments], listed[deployments..]);
      assert listed[..deployments] + listed[deployments..] == listed;
      PatchedIsAnnotated(cfg, pods, listed, uuid, 0, before);
      if requeue {
        return true, true, 0;
      }
      var with, without := LookAtPods(cfg, pods);
      var needsState := cfg.effective != (with && !without) || (with && without);
      var calls: nat := 0;
      for i := 0 to |pods|
        invariant workloads == before
      {
        if pods[i].terminating {
          continue;
        }
        if fails(calls) {  // annotating the pod itself
          return false, false, 0;
        }
        calls := calls + 1;
      }
      for i := 0 to |listed|
        invariant |workloads| == |before| == |listed| && k == i
        invariant workloads == PatchedListed(cfg, uuid, wanted, listed, before, i)
      {
        if needsState || NeedsHash(cfg, listed[i]) {
          var ok' := !fails(calls);
          if ok' || lost(calls) {
            workloads := workloads[i := PatchOf(cfg, uuid, needsState, listed[i], workloads[i])];
            k := i + 1;
          }
          if !ok' {
            PatchedIsAnnotated(cfg, pods, listed, uuid, k, before);
            return false, false, k;
          }
          calls := calls + 1;
        }
        k := i + 1;
      }
      PatchedIsAnnotated(cfg, pods, listed, uuid, k, before);
      return false, true, k;
    }
  }

  /** When nothing falls between the listing and the patches this is one atomic Reconcile. */
  lemma AtomicReconcile(cfg: Config, pods: seq<Pod>, ws: seq<Workload>, uuid: string, k: nat)
    ensures Reconciled(cfg, pods, ws, uuid, k)
         == if InProgress(ws) then ws else PatchedListed(cfg, uuid, NeedsState(cfg, pods), ws, ws, k)
  {
  }

  /* ---- Runs ---- */

  datatype Event =
    | Reconcile(uuid: string, upTo: nat)  // one pass at one moment, ended by a failing Patch after `upTo` workloads
    | Observe(w: nat)                     // the workload's controller reports generation and counts
    | Create(w: nat, rev: nat)            // a pod is created and admitted; of an old revision only mid-rollout
    | Terminate(p: nat)                   // a pod gets a deletion timestamp
    | Remove(p: nat)                      // a terminating pod is gone
    | Scale(w: nat)                       // a spec change outside the template

  function CountLive(pods: seq<Pod>, owner: nat): nat {
    if pods == [] then 0 else
      CountLive(pods[..|pods| - 1], owner) + (if IsLive(pods[|pods| - 1], owner) then 1 else 0)
  }

  function CountUpdated(pods: seq<Pod>, owner: nat, rev: nat): nat {
    if pods == [] then 0 else
      var p := pods[|pods| - 1];
      CountUpdated(pods[..|pods| - 1], owner, rev) + (if IsLive(p, owner) && p.rev == rev then 1 else 0)
  }

  predicate IsLive(p: Pod, owner: nat) { p.owner == owner && !p.terminating }

  /** Until a patch is observed and rolled out, the workload's controller may still make old pods. */
  predicate MayCreate(w: Workload, rev: nat) { rev == w.rev || (rev < w.rev && RollingOut(w)) }

  function Step(cfg: Config, s: State, e: Event): State {
    match e
    case Reconcile(uuid, upTo) => s.(workloads := Reconciled(cfg, s.pods, s.workloads, uuid, upTo))
    case Observe(w) =>
      if w >= |s.workloads| then s else
        s.(workloads := s.workloads[w := s.workloads[w].(
          observed := s.workloads[w].generation,
          replicas := CountLive(s.pods, w),
          updated := CountUpdated(s.pods, w, s.workloads[w].rev))])
    case Create(w, rev) =>
      if w >= |s.workloads| || !MayCreate(s.workloads[w], rev) then s else
        s.(pods := s.pods + [Pod(w, rev, false, Admit(cfg, s.workloads[w].template))])
    case Terminate(p) => if p >= |s.pods| then s else s.(pods := s.pods[p := s.pods[p].(terminating := true)])
    case Remove(p) =>
      if p >= |s.pods| || !s.pods[p].terminating then s else s.(pods := s.pods[..p] + s.pods[p + 1..])
    case Scale(w) =>
      if w >= |s.workloads| then s else
        s.(workloads := s.workloads[w := s.workloads[w].(generation := s.workloads[w].generation + 1)])
  }

  function Run(cfg: Config, s: State, events: seq<Event>): State
    decreases |events|
  {
    if events == [] then s else Run(cfg, Step(cfg, s, events[0]), events[1..])
  }

  /** Pods belong to workloads and are of no future revision; templates are clean; DaemonSets were
      observed once; and a report that shows no rollout is true: no live pod is of an old revision. */
  ghost predicate Sane(s: State) {
    && (forall p :: 0 <= p < |s.pods| ==>
          s.pods[p].owner < |s.workloads| && s.pods[p].rev <= s.workloads[s.pods[p].owner].rev)
    && (forall w :: 0 <= w < |s.workloads| ==> SaneWorkload(s.workloads[w]))
    && (forall p :: 0 <= p < |s.pods| && !s.pods[p].terminating && !RollingOut(s.workloads[s.pods[p].owner]) ==>
          s.pods[p].rev == s.workloads[s.pods[p].owner].rev)
  }

  ghost predicate SaneWorkload(w: Workload) {
    w.observed <= w.generation && (w.daemon ==> w.observed > 0) && E.CleanTemplate(w.template)
  }

  lemma {:induction false} CountsTell(pods: seq<Pod>, owner: nat, rev: nat)
    ensures CountUpdated(pods, owner, rev) <= CountLive(pods, owner)
    ensures CountLive(pods, owner) <= CountUpdated(pods, owner, rev) ==>
              forall p :: 0 <= p < |pods| && IsLive(pods[p], owner) ==> pods[p].rev == rev
  {
    if pods != [] {
      CountsTell(pods[..|pods| - 1], owner, rev);
    }
  }

  lemma ObserveSane(cfg: Config, s: State, w: nat)
    requires Sane(s) && w < |s.workloads|
    ensures Sane(Step(cfg, s, Observe(w)))
  {
    CountsTell(s.pods, w, s.workloads[w].rev);
    var t := Step(cfg, s, Observe(w));
    forall p | 0 <= p < |t.pods| && !t.pods[p].terminating && !RollingOut(t.workloads[t.pods[p].owner])
      ensures t.pods[p].rev == t.workloads[t.pods[p].owner].rev
    {
      if t.pods[p].owner == w {
        assert IsLive(s.pods[p], w);
      }
    }
  }

  lemma ReconcileSane(cfg: Config, s: State, uuid: string, k: nat)
    requires Sane(s)
    ensures Sane(Step(cfg, s, Reconcile(uuid, k)))
  {
  }

  /** Losing pods, or gaining current ones, keeps the reports true. */
  lemma PodsSane(s: State, t: State)
    requires Sane(s) && t.workloads == s.workloads
    requires forall p :: 0 <= p < |t.pods| ==> SanePod(s, t.pods[p])
    ensures Sane(t)
  {
  }

  ghost predicate SanePod(s: State, p: Pod) {
    p.owner < |s.workloads| && p.rev <= s.workloads[p.owner].rev
    && (!p.terminating && !RollingOut(s.workloads[p.owner]) ==> p.rev == s.workloads[p.owner].rev)
  }

  lemma ScaleSane(cfg: Config, s: State, w: nat)
    requires Sane(s) && w < |s.workloads|
    ensures Sane(Step(cfg, s, Scale(w)))
  {
    assert SaneWorkload(s.workloads[w]);
  }

  /** Every step of the loop and of Kubernetes keeps the reports true. */
  lemma StepSane(cfg: Config, s: State, e: Event)
    requires Sane(s)
    ensures Sane(Step(cfg, s, e))
  {
    assert forall p :: 0 <= p < |s.pods| ==> SanePod(s, s.pods[p]);
    match e
    case Reconcile(uuid, upTo) => ReconcileSane(cfg, s, uuid, upTo);
    case Observe(w) => if w < |s.workloads| { ObserveSane(cfg, s, w); }
    case Create(_, _) => PodsSane(s, Step(cfg, s, e));
    case Terminate(p) => PodsSane(s, Step(cfg, s, e));
    case Remove(p) => PodsSane(s, Step(cfg, s, e));
    case Scale(w) => if w < |s.workloads| { ScaleSane(cfg, s, w); }
  }

  /* ---- Settling ---- */

  /** Nothing is left to ask for: the hash is in place and every live pod of the current revision is
      as wanted. */
  ghost predicate Settled(cfg: Config, s: State) {
    && (forall w :: 0 <= w < |s.workloads| ==> !NeedsHash(cfg, s.workloads[w]))
    && (forall p :: 0 <= p < |s.pods| ==> GoodIfCurrent(cfg, s, s.pods[p]))
  }

  predicate GoodIfCurrent(cfg: Config, s: State, p: Pod) {
    p.owner < |s.workloads| && !p.terminating && p.rev == s.workloads[p.owner].rev ==> Good(cfg, p)
  }

  predicate HasLivePod(s: State) { exists p :: 0 <= p < |s.pods| && !s.pods[p].terminating }

  /** A completed Reconcile that was not deferred settles the loop, from any state. */
  lemma ReconcileSettles(cfg: Config, s: State, uuid: string, k: nat)
    requires Sane(s) && !InProgress(s.workloads) && k >= |s.workloads|
    ensures Settled(cfg, Step(cfg, s, Reconcile(uuid, k)))
  {
    var needsState := NeedsState(cfg, s.pods);
    var t := Step(cfg, s, Reconcile(uuid, k));
    assert forall w :: 0 <= w < |s.workloads| ==> t.workloads[w] == Patched(cfg, uuid, needsState, s.workloads[w]);
    if !needsState {
      NeedsStateIff(cfg, s.pods);
      assert AllGood(cfg, s);
    }
  }

  ghost predicate AllGood(cfg: Config, s: State) {
    forall p :: 0 <= p < |s.pods| && !s.pods[p].terminating ==> Good(cfg, s.pods[p])
  }

  /** What settling is for: once no rollout is in progress, every live pod is as wanted. */
  lemma SettledIsGood(cfg: Config, s: State)
    requires Sane(s) && Settled(cfg, s) && !InProgress(s.workloads)
    ensures AllGood(cfg, s)
  {
    forall p | 0 <= p < |s.pods| && !s.pods[p].terminating ensures Good(cfg, s.pods[p]) {
      assert GoodIfCurrent(cfg, s, s.pods[p]);
      assert !RollingOut(s.workloads[s.pods[p].owner]);
    }
  }

  /** In a settled state a Reconcile patches nothing, provided a live pod exists to look at. */
  lemma SettledIsQuiet(cfg: Config, s: State, uuid: string, k: nat)
    requires Sane(s) && Settled(cfg, s) && (cfg.effective ==> HasLivePod(s))
    ensures Step(cfg, s, Reconcile(uuid, k)) == s
  {
    if !InProgress(s.workloads) {
      SettledIsGood(cfg, s);
      NeedsStateIff(cfg, s.pods);
      assert PatchedFirst(cfg, uuid, false, s.workloads, k) == s.workloads;
    }
  }

  /** The webhook gives every new pod what the reconciler looks for. */
  ghost predicate Consistent(cfg: Config) {
    forall template :: E.CleanTemplate(template) ==> Check(cfg, Admit(cfg, template)) == cfg.effective
  }

  /** What that comes to: a route is effective exactly when the webhook injects (a route attached, a
      config Secret present) a command line the checker does not misread. */
  lemma ConsistentIff(cfg: Config)
    ensures Consistent(cfg) <==>
              (cfg.effective <==> cfg.attached && (cfg.hasLegacy || cfg.hasBundle)
                                  && E.Quiet(cfg.b, cfg.input.needMCP, cfg.hasBundle, cfg.b.logLevel))
  {
    forall template | E.CleanTemplate(template)
      ensures Check(cfg, Admit(cfg, template)) <==>
                cfg.attached && (cfg.hasLegacy || cfg.hasBundle)
                && E.Quiet(cfg.b, cfg.input.needMCP, cfg.hasBundle, cfg.b.logLevel)
    {
      CheckAdmitted(cfg, template);
    }
    assert E.CleanTemplate(E.PodSpec([], [], [], []));
  }

  lemma CheckAdmitted(cfg: Config, template: E.PodSpec)
    requires E.CleanTemplate(template)
    ensures Check(cfg, Admit(cfg, template)) <==>
              cfg.attached && (cfg.hasLegacy || cfg.hasBundle)
              && E.Quiet(cfg.b, cfg.input.needMCP, cfg.hasBundle, cfg.b.logLevel)
  {
    if cfg.attached && (cfg.hasLegacy || cfg.hasBundle) {
      E.SelfAcceptedIff(cfg.b, cfg.g, template, cfg.input, cfg.hasLegacy, cfg.hasBundle);
    }
  }

  /** Steps that keep every template and annotation and add no pod keep the loop settled. */
  lemma FewerPodsSettled(cfg: Config, s: State, t: State)
    requires Settled(cfg, s) && |t.workloads| == |s.workloads|
    requires forall w :: 0 <= w < |s.workloads| ==>
               t.workloads[w].rev == s.workloads[w].rev && t.workloads[w].hash == s.workloads[w].hash
    requires forall p :: 0 <= p < |t.pods| ==> t.pods[p].terminating || t.pods[p] in s.pods
    ensures Settled(cfg, t)
  {
    forall p | 0 <= p < |t.pods| ensures GoodIfCurrent(cfg, t, t.pods[p]) {
      if !t.pods[p].terminating {
        var q :| 0 <= q < |s.pods| && s.pods[q] == t.pods[p];
        assert GoodIfCurrent(cfg, s, s.pods[q]);
      }
    }
  }

  lemma GoodPodSettled(cfg: Config, s: State, p: Pod)
    requires Settled(cfg, s) && Good(cfg, p)
    ensures Settled(cfg, s.(pods := s.pods + [p]))
  {
    var t := s.(pods := s.pods + [p]);
    forall q | 0 <= q < |t.pods| ensures GoodIfCurrent(cfg, t, t.pods[q]) {
      if q < |s.pods| {
        assert GoodIfCurrent(cfg, s, s.pods[q]);
      }
    }
  }

  /** What is created now is as wanted, of whatever revision. */
  lemma CreatedIsGood(cfg: Config, s: State, w: nat, rev: nat)
    requires Sane(s) && Consistent(cfg) && w < |s.workloads|
    ensures Good(cfg, Pod(w, rev, false, Admit(cfg, s.workloads[w].template)))
  {
    assert SaneWorkload(s.workloads[w]);
  }

  lemma CreateSettled(cfg: Config, s: State, w: nat, rev: nat)
    requires Sane(s) && Settled(cfg, s) && Consistent(cfg) && w < |s.workloads|
    ensures Settled(cfg, Step(cfg, s, Create(w, rev)))
  {
    CreatedIsGood(cfg, s, w, rev);
    GoodPodSettled(cfg, s, Pod(w, rev, false, Admit(cfg, s.workloads[w].template)));
  }

  /** Once settled, always settled: no step of Kubernetes undoes it, pods created later included. */
  lemma StepSettled(cfg: Config, s: State, e: Event)
    requires Sane(s) && Settled(cfg, s) && Consistent(cfg)
    requires e.Reconcile? && cfg.effective ==> HasLivePod(s)
    ensures |Step(cfg, s, e).workloads| == |s.workloads| && Settled(cfg, Step(cfg, s, e))
    ensures forall w :: 0 <= w < |s.workloads| ==> Step(cfg, s, e).workloads[w].rev == s.workloads[w].rev
  {
    match e
    case Reconcile(uuid, upTo) => SettledIsQuiet(cfg, s, uuid, upTo);
    case Observe(w) => FewerPodsSettled(cfg, s, Step(cfg, s, e));
    case Create(w, rev) => if w < |s.workloads| { CreateSettled(cfg, s, w, rev); }
    case Terminate(p) => FewerPodsSettled(cfg, s, Step(cfg, s, e));
    case Remove(p) => FewerPodsSettled(cfg, s, Step(cfg, s, e));
    case Scale(w) => FewerPodsSettled(cfg, s, Step(cfg, s, e));
  }

  /** Whenever the reconciler runs while a route is effective, some pod is live. */
  ghost predicate LiveWhenReconciling(cfg: Config, s: State, events: seq<Event>)
    decreases |events|
  {
    events != [] ==>
      && (events[0].Reconcile? && cfg.effective ==> HasLivePod(s))
      && LiveWhenReconciling(cfg, Step(cfg, s, events[0]), events[1..])
  }

  /** No perpetual rollout: from a settled state on, no run ever changes a template again. */
  lemma {:induction false} NoMorePatches(cfg: Config, s: State, events: seq<Event>, w: nat)
    requires Sane(s) && Settled(cfg, s) && Consistent(cfg) && LiveWhenReconciling(cfg, s, events) && w < |s.workloads|
    ensures var t := Run(cfg, s, events);
            |t.workloads| == |s.workloads| && t.workloads[w].rev == s.workloads[w].rev && Sane(t) && Settled(cfg, t)
    decreases |events|
  {
    if events != [] {
      var next := Step(cfg, s, events[0]);
      StepSane(cfg, s, events[0]);
      StepSettled(cfg, s, events[0]);
      assert |next.workloads| == |s.workloads|;
      NoMorePatches(cfg, next, events[1..], w);
    }
  }

  lemma StepRev(cfg: Config, s: State, e: Event, w: nat)
    requires w < |s.workloads|
    ensures |Step(cfg, s, e).workloads| == |s.workloads|
    ensures s.workloads[w].rev <= Step(cfg, s, e).workloads[w].rev <= s.workloads[w].rev + 1
    ensures !(e.Reconcile? && !InProgress(s.workloads)) ==> Step(cfg, s, e).workloads[w].rev == s.workloads[w].rev
  {
  }

  /** How many reconciles of a run end on a failing Patch, with `n` workloads to go through. */
  function Failures(events: seq<Event>, n: nat): nat {
    if events == [] then 0 else
      (if events[0].Reconcile? && events[0].upTo < n then 1 else 0) + Failures(events[1..], n)
  }

  /** In every run from every sane state, whatever the pods and annotations were, each template is
      patched at most once more than reconciles failed: at most once if none does. */
  lemma {:induction false} PatchesBounded(cfg: Config, s: State, events: seq<Event>, w: nat)
    requires Sane(s) && Consistent(cfg) && LiveWhenReconciling(cfg, s, events) && w < |s.workloads|
    ensures var t := Run(cfg, s, events);
            |t.workloads| == |s.workloads|
            && s.workloads[w].rev <= t.workloads[w].rev <= s.workloads[w].rev + 1 + Failures(events, |s.workloads|)
    decreases |events|
  {
    if events != [] {
      var e, rest := events[0], events[1..];
      var next := Step(cfg, s, e);
      StepSane(cfg, s, e);
      StepRev(cfg, s, e, w);
      if e.Reconcile? && !InProgress(s.workloads) && e.upTo >= |s.workloads| {
        ReconcileSettles(cfg, s, e.uuid, e.upTo);
        NoMorePatches(cfg, next, rest, w);
      } else {
        PatchesBounded(cfg, next, rest, w);
      }
    }
  }

  /** A failing Patch call may cause another patch, but only until one Reconcile has gone through:
      after the first completed, undeferred one nothing is patched any more. */
  lemma QuietAfterFirstComplete(cfg: Config, s: State, uuid: string, k: nat, events: seq<Event>, w: nat)
    requires Sane(s) && Consistent(cfg) && !InProgress(s.workloads) && k >= |s.workloads| && w < |s.workloads|
    requires LiveWhenReconciling(cfg, Step(cfg, s, Reconcile(uuid, k)), events)
    ensures var next := Step(cfg, s, Reconcile(uuid, k));
            |next.workloads| == |s.workloads| && |Run(cfg, next, events).workloads| == |s.workloads|
            && Run(cfg, next, events).workloads[w].rev == next.workloads[w].rev
  {
    StepSane(cfg, s, Reconcile(uuid, k));
    ReconcileSettles(cfg, s, uuid, k);
    NoMorePatches(cfg, Step(cfg, s, Reconcile(uuid, k)), events, w);
  }

  /** No change is missed: when the injected container or the pull secrets change, every workload
      still annotated with the old hash is patched by the next Reconcile that is not deferred. */
  lemma ContainerChangeRollsOut(sha256: E.Digest -> string, old': Config, cfg: Config, s: State, uuid: string, k: nat,
                                w: nat)
    requires cfg.desiredHash != ""
    requires old'.desiredHash == cfg.desiredHash ==> E.DigestOf(old'.b, old'.input) == E.DigestOf(cfg.b, cfg.input)
    requires old'.desiredHash == sha256(E.DigestOf(old'.b, old'.input))
             && cfg.desiredHash == sha256(E.DigestOf(cfg.b, cfg.input))
    requires E.Build(old'.b, old'.input) != E.Build(cfg.b, cfg.input)
             || old'.b.imagePullSecrets != cfg.b.imagePullSecrets
    requires cfg.effective && !InProgress(s.workloads) && w < |s.workloads| <= k
             && s.workloads[w].hash == Some(old'.desiredHash)
    ensures var t := Step(cfg, s, Reconcile(uuid, k));
            w < |t.workloads| && t.workloads[w].rev == s.workloads[w].rev + 1
            && t.workloads[w].hash == Some(cfg.desiredHash)
  {
    assert old'.desiredHash != cfg.desiredHash by {
      E.HashSeesEveryChange(sha256, old'.b, old'.input, cfg.b, cfg.input);
    }
    HashMismatchRollsOut(cfg, s, uuid, k, w);
  }

  lemma HashMismatchRollsOut(cfg: Config, s: State, uuid: string, k: nat, w: nat)
    requires !InProgress(s.workloads) && w < |s.workloads| <= k && NeedsHash(cfg, s.workloads[w])
    ensures var t := Step(cfg, s, Reconcile(uuid, k));
            w < |t.workloads| && t.workloads[w].rev == s.workloads[w].rev + 1
            && t.workloads[w].hash == Some(cfg.desiredHash)
  {
  }

  /* ---- Putting runs together ---- */

  lemma {:induction false} RunConcat(cfg: Config, s: State, a: seq<Event>, b: seq<Event>)
    ensures Run(cfg, s, a + b) == Run(cfg, Run(cfg, s, a), b)
    decreases |a|
  {
    if a == [] {
      assert a + b == b;
    } else {
      assert (a + b)[0] == a[0] && (a + b)[1..] == a[1..] + b;
      RunConcat(cfg, Step(cfg, s, a[0]), a[1..], b);
    }
  }

  lemma {:induction false} LiveConcat(cfg: Config, s: State, a: seq<Event>, b: seq<Event>)
    requires LiveWhenReconciling(cfg, s, a) && LiveWhenReconciling(cfg, Run(cfg, s, a), b)
    ensures LiveWhenReconciling(cfg, s, a + b)
    decreases |a|
  {
    if a == [] {
      assert a + b == b;
    } else {
      assert (a + b)[0] == a[0] && (a + b)[1..] == a[1..] + b;
      LiveConcat(cfg, Step(cfg, s, a[0]), a[1..], b);
    }
  }

  lemma {:induction false} FailuresConcat(a: seq<Event>, b: seq<Event>, n: nat)
    ensures Failures(a + b, n) == Failures(a, n) + Failures(b, n)
    decreases |a|
  {
    if a == [] {
      assert a + b == b;
    } else {
      assert (a + b)[0] == a[0] && (a + b)[1..] == a[1..] + b;
      FailuresConcat(a[1..], b, n);
    }
  }

  lemma {:induction false} RunSane(cfg: Config, s: State, events: seq<Event>)
    requires Sane(s)
    ensures Sane(Run(cfg, s, events))
    decreases |events|
  {
    if events != [] {
      StepSane(cfg, s, events[0]);
      RunSane(cfg, Step(cfg, s, events[0]), events[1..]);
    }
  }

  ghost predicate KubernetesOnly(events: seq<Event>) { forall i :: 0 <= i < |events| ==> !events[i].Reconcile? }

  lemma {:induction false} KubernetesIsClean(cfg: Config, s: State, events: seq<Event>, n: nat)
    requires KubernetesOnly(events)
    ensures LiveWhenReconciling(cfg, s, events) && Failures(events, n) == 0
    decreases |events|
  {
    if events != [] {
      KubernetesIsClean(cfg, Step(cfg, s, events[0]), events[1..], n);
    }
  }

  /** Kubernetes events, then one Reconcile that goes through. */
  lemma ThenReconcile(cfg: Config, s: State, events: seq<Event>, uuid: string) returns (all: seq<Event>)
    requires KubernetesOnly(events)
    ensures all == events + [Reconcile(uuid, |s.workloads|)] && Failures(all, |s.workloads|) == 0
    ensures Run(cfg, s, all) == Step(cfg, Run(cfg, s, events), Reconcile(uuid, |s.workloads|))
    ensures HasLivePod(Run(cfg, s, events)) || !cfg.effective ==> LiveWhenReconciling(cfg, s, all)
  {
    var last := [Reconcile(uuid, |s.workloads|)];
    all := events + last;
    KubernetesIsClean(cfg, s, events, |s.workloads|);
    RunConcat(cfg, s, events, last);
    FailuresConcat(events, last, |s.workloads|);
    assert last[1..] == [];
    if HasLivePod(Run(cfg, s, events)) || !cfg.effective {
      LiveConcat(cfg, s, events, last);
    }
  }

  /* ---- A rollout can always complete ---- */

  lemma RunAppend(cfg: Config, s: State, events: seq<Event>, e: Event)
    ensures Run(cfg, s, events + [e]) == Step(cfg, Run(cfg, s, events), e)
  {
    RunConcat(cfg, s, events, [e]);
    assert [e][1..] == [];
  }

  /** Every live pod is of its workload's current revision, as the webhook makes it. */
  ghost predicate AllFresh(cfg: Config, s: State) {
    forall p :: 0 <= p < |s.pods| && !s.pods[p].terminating ==> FreshPod(cfg, s, s.pods[p])
  }

  predicate FreshPod(cfg: Config, s: State, p: Pod) {
    p.owner < |s.workloads| && p.rev == s.workloads[p.owner].rev && p.spec == Admit(cfg, s.workloads[p.owner].template)
  }

  /** Only status differs. */
  ghost predicate SameTemplates(s: State, t: State) {
    && |t.workloads| == |s.workloads|
    && forall w :: 0 <= w < |s.workloads| ==>
         t.workloads[w].rev == s.workloads[w].rev && t.workloads[w].template == s.workloads[w].template
  }

  /** All pods are terminated but those of workload `keep`, if there is such a workload. */
  lemma TerminateAllBut(cfg: Config, s: State, keep: int) returns (events: seq<Event>)
    ensures KubernetesOnly(events) && Run(cfg, s, events).workloads == s.workloads
    ensures |Run(cfg, s, events).pods| == |s.pods|
    ensures forall p :: 0 <= p < |s.pods| ==>
              if s.pods[p].owner == keep then Run(cfg, s, events).pods[p] == s.pods[p]
              else Run(cfg, s, events).pods[p] == s.pods[p].(terminating := true)
    ensures forall i, w :: 0 <= i < |events| ==> events[i] != Observe(w)
  {
    events := [];
    var t, n := s, 0;
    while n < |s.pods|
      invariant 0 <= n <= |s.pods| == |t.pods| && KubernetesOnly(events)
      invariant t == Run(cfg, s, events) && t.workloads == s.workloads
      invariant forall p :: 0 <= p < |s.pods| ==>
                  t.pods[p] == if p < n && s.pods[p].owner != keep then s.pods[p].(terminating := true) else s.pods[p]
      invariant forall i, w :: 0 <= i < |events| ==> events[i] != Observe(w)
    {
      if s.pods[n].owner != keep {
        RunAppend(cfg, s, events, Terminate(n));
        t, events := Step(cfg, t, Terminate(n)), events + [Terminate(n)];
      }
      n := n + 1;
    }
  }

  lemma CreateNew(cfg: Config, s: State, before: seq<Event>) returns (events: seq<Event>)
    requires KubernetesOnly(before) && AllFresh(cfg, Run(cfg, s, before))
    ensures KubernetesOnly(events) && AllFresh(cfg, Run(cfg, s, events))
    ensures Run(cfg, s, events).workloads == Run(cfg, s, before).workloads
    ensures Run(cfg, s, events).workloads != [] ==> HasLivePod(Run(cfg, s, events))
  {
    events := before;
    var t, n := Run(cfg, s, before), 0;
    while n < |t.workloads|
      invariant 0 <= n <= |t.workloads| && KubernetesOnly(events)
      invariant t == Run(cfg, s, events) && t.workloads == Run(cfg, s, before).workloads && AllFresh(cfg, t)
      invariant n > 0 ==> HasLivePod(t)
    {
      var e := Create(n, t.workloads[n].rev);
      RunAppend(cfg, s, events, e);
      var next := Step(cfg, t, e);
      assert !next.pods[|t.pods|].terminating;
      t, events, n := next, events + [e], n + 1;
    }
  }

  lemma {:induction false} CountsEqual(pods: seq<Pod>, owner: nat, rev: nat)
    requires forall p :: 0 <= p < |pods| && IsLive(pods[p], owner) ==> pods[p].rev == rev
    ensures CountLive(pods, owner) == CountUpdated(pods, owner, rev)
  {
    if pods != [] {
      CountsEqual(pods[..|pods| - 1], owner, rev);
    }
  }

  ghost predicate CurrentOf(s: State, w: nat)
    requires w < |s.workloads|
  {
    forall p :: 0 <= p < |s.pods| && IsLive(s.pods[p], w) ==> s.pods[p].rev == s.workloads[w].rev
  }

  /** Every workload but `keep` reports, and none of those is mid-rollout any more. */
  lemma ObserveAllBut(cfg: Config, s: State, before: seq<Event>, keep: int) returns (events: seq<Event>)
    requires KubernetesOnly(before) && (forall i :: 0 <= i < |before| ==> before[i].Observe? ==> before[i].w != keep)
    requires forall w :: 0 <= w < |Run(cfg, s, before).workloads| && w != keep ==> CurrentOf(Run(cfg, s, before), w)
    ensures var t, u := Run(cfg, s, events), Run(cfg, s, before);
            && KubernetesOnly(events) && t.pods == u.pods && SameTemplates(u, t)
            && (forall w :: 0 <= w < |t.workloads| && w != keep ==> !RollingOut(t.workloads[w]))
            && (0 <= keep < |t.workloads| ==> t.workloads[keep] == u.workloads[keep])
    ensures forall i :: 0 <= i < |events| ==> events[i].Observe? ==> events[i].w != keep
  {
    events := before;
    ghost var u := Run(cfg, s, before);
    var t, n := u, 0;
    while n < |t.workloads|
      invariant 0 <= n <= |t.workloads| && KubernetesOnly(events)
      invariant forall i :: 0 <= i < |events| ==> events[i].Observe? ==> events[i].w != keep
      invariant t == Run(cfg, s, events) && t.pods == u.pods && SameTemplates(u, t)
      invariant forall w :: 0 <= w < n && w != keep ==> !RollingOut(t.workloads[w])
      invariant 0 <= keep < |t.workloads| ==> t.workloads[keep] == u.workloads[keep]
    {
      if n != keep {
        RunAppend(cfg, s, events, Observe(n));
        assert CurrentOf(u, n);
        CountsEqual(t.pods, n, t.workloads[n].rev);
        t, events := Step(cfg, t, Observe(n)), events + [Observe(n)];
      }
      n := n + 1;
    }
  }

  /** From every state Kubernetes can bring the rollout to its end without touching a template, with
      live pods of the current revision, fresh from the webhook, for the reconciler to look at. */
  lemma RolloutCanComplete(cfg: Config, s: State) returns (events: seq<Event>)
    ensures KubernetesOnly(events)
    ensures var t := Run(cfg, s, events);
            && SameTemplates(s, t) && !InProgress(t.workloads) && AllFresh(cfg, t)
            && (s.workloads != [] ==> HasLivePod(t))
  {
    var first := TerminateAllBut(cfg, s, -1);
    var second := CreateNew(cfg, s, first);
    assert forall w :: 0 <= w < |Run(cfg, s, second).workloads| ==> CurrentOf(Run(cfg, s, second), w);
    events := ObserveAllBut(cfg, s, second, -1);
  }

  /** The loop does its work: from every sane state some run, with a single Reconcile, ends with no
      rollout in progress and every live pod as wanted, and there it stays. */
  lemma ReachesWanted(cfg: Config, s: State, uuid: string) returns (events: seq<Event>)
    requires Sane(s) && Consistent(cfg) && s.workloads != []
    ensures LiveWhenReconciling(cfg, s, events) && Failures(events, |s.workloads|) == 0
    ensures var t := Run(cfg, s, events);
            Sane(t) && Settled(cfg, t) && !InProgress(t.workloads) && HasLivePod(t) && AllGood(cfg, t)
  {
    var first := RolloutCanComplete(cfg, s);
    var upTo := ThenReconcile(cfg, s, first, uuid);
    RunSane(cfg, s, first);
    ReconcileSettles(cfg, Run(cfg, s, first), uuid, |s.workloads|);
    RunSane(cfg, s, upTo);
    var mid := Run(cfg, s, upTo);
    var second := RolloutCanComplete(cfg, mid);
    KubernetesIsClean(cfg, mid, second, |s.workloads|);
    NoMorePatches(cfg, mid, second, 0);
    SettledIsGood(cfg, Run(cfg, mid, second));
    events := upTo + second;
    RunConcat(cfg, s, upTo, second);
    LiveConcat(cfg, s, upTo, second);
    FailuresConcat(upTo, second, |s.workloads|);
  }

  /* ---- When the loop settles, exactly ---- */

  /** `n` more patches of every template. */
  ghost predicate Raised(s: State, t: State, n: nat) {
    && |t.workloads| == |s.workloads|
    && forall w :: 0 <= w < |s.workloads| ==> t.workloads[w].rev == s.workloads[w].rev + n
  }

  lemma PatchesEverything(cfg: Config, s: State, uuid: string)
    requires !InProgress(s.workloads) && NeedsState(cfg, s.pods)
    ensures Raised(s, Step(cfg, s, Reconcile(uuid, |s.workloads|)), 1)
  {
  }

  /** With inconsistent inputs (a route mid-deletion, no config Secret, an option read as a flag) a
      completed rollout is never what the reconciler wants. */
  lemma InconsistentNeedsState(cfg: Config, s: State)
    requires !Consistent(cfg) && HasLivePod(s) && AllFresh(cfg, s)
    requires forall w :: 0 <= w < |s.workloads| ==> E.CleanTemplate(s.workloads[w].template)
    ensures NeedsState(cfg, s.pods)
  {
    var p :| 0 <= p < |s.pods| && !s.pods[p].terminating;
    CheckAdmitted(cfg, s.workloads[s.pods[p].owner].template);
    ConsistentIff(cfg);
    assert !Good(cfg, s.pods[p]);
    NeedsStateIff(cfg, s.pods);
  }

  /** One more round that patches everything: with live pods if the inputs are inconsistent, without
      any if a route is effective. */
  lemma Round(cfg: Config, s: State, uuid: string, live: bool) returns (events: seq<Event>)
    requires Sane(s) && s.workloads != [] && (if live then !Consistent(cfg) else cfg.effective)
    ensures (live ==> LiveWhenReconciling(cfg, s, events)) && Failures(events, |s.workloads|) == 0
    ensures Sane(Run(cfg, s, events)) && Raised(s, Run(cfg, s, events), 1)
  {
    var first: seq<Event>;
    if live {
      first := RolloutCanComplete(cfg, s);
      RunSane(cfg, s, first);
      var t := Run(cfg, s, first);
      assert forall w :: 0 <= w < |t.workloads| ==> SaneWorkload(t.workloads[w]);
      InconsistentNeedsState(cfg, t);
    } else {
      first := NoPods(cfg, s);
      NeedsStateIff(cfg, Run(cfg, s, first).pods);
    }
    PatchesEverything(cfg, Run(cfg, s, first), uuid);
    events := ThenReconcile(cfg, s, first, uuid);
    RunSane(cfg, s, events);
  }

  /** Kubernetes can also take every pod away and report so. */
  lemma NoPods(cfg: Config, s: State) returns (events: seq<Event>)
    ensures KubernetesOnly(events)
    ensures var t := Run(cfg, s, events); SameTemplates(s, t) && !InProgress(t.workloads) && !HasLivePod(t)
  {
    var first := TerminateAllBut(cfg, s, -1);
    assert forall w :: 0 <= w < |Run(cfg, s, first).workloads| ==> CurrentOf(Run(cfg, s, first), w);
    events := ObserveAllBut(cfg, s, first, -1);
  }

  /** Round after round without end: for every `n` some run patches every template `n` times, though
      no Patch fails and, if `live`, every Reconcile finds a live pod. */
  lemma {:induction false} RollsForever(cfg: Config, s: State, n: nat, uuids: nat -> string, live: bool)
    returns (events: seq<Event>)
    requires Sane(s) && s.workloads != [] && (if live then !Consistent(cfg) else cfg.effective)
    ensures (live ==> LiveWhenReconciling(cfg, s, events)) && Failures(events, |s.workloads|) == 0
    ensures Raised(s, Run(cfg, s, events), n)
    decreases n
  {
    events := [];
    if n > 0 {
      var first := Round(cfg, s, uuids(n), live);
      var t := Run(cfg, s, first);
      var rest := RollsForever(cfg, t, n - 1, uuids, live);
      events := first + rest;
      RunConcat(cfg, s, first, rest);
      FailuresConcat(first, rest, |s.workloads|);
      if live {
        LiveConcat(cfg, s, first, rest);
      }
    }
  }

  /** No run without failing Patch calls patches the template more than `bound` times; with `live`,
      no such run in which every Reconcile under an effective route finds a live pod. */
  ghost predicate PatchesAtMost(cfg: Config, s: State, w: nat, bound: nat, live: bool)
    requires w < |s.workloads|
  {
    forall events ::
      (live ==> LiveWhenReconciling(cfg, s, events)) && Failures(events, |s.workloads|) == 0 ==>
        w < |Run(cfg, s, events).workloads| && Run(cfg, s, events).workloads[w].rev <= s.workloads[w].rev + bound
  }

  lemma Unbounded(cfg: Config, s: State, w: nat, bound: nat, live: bool)
    requires Sane(s) && w < |s.workloads| && (if live then !Consistent(cfg) else cfg.effective)
    ensures !PatchesAtMost(cfg, s, w, bound, live)
  {
    var events := RollsForever(cfg, s, bound + 1, Digits, live);
    assert Run(cfg, s, events).workloads[w].rev == s.workloads[w].rev + bound + 1;
  }

  lemma {:induction false} LiveIfIdle(cfg: Config, s: State, events: seq<Event>)
    requires !cfg.effective
    ensures LiveWhenReconciling(cfg, s, events)
    decreases |events|
  {
    if events != [] {
      LiveIfIdle(cfg, Step(cfg, s, events[0]), events[1..]);
    }
  }

  lemma ConsistentBounds(cfg: Config, s: State, w: nat)
    requires Sane(s) && w < |s.workloads| && Consistent(cfg)
    ensures PatchesAtMost(cfg, s, w, 1, true)
  {
    forall events | LiveWhenReconciling(cfg, s, events) && Failures(events, |s.workloads|) == 0
      ensures w < |Run(cfg, s, events).workloads| && Run(cfg, s, events).workloads[w].rev <= s.workloads[w].rev + 1
    {
      PatchesBounded(cfg, s, events, w);
    }
  }

  lemma IdleNeedsNoPod(cfg: Config, s: State, w: nat, bound: nat)
    requires w < |s.workloads| && !cfg.effective
    ensures PatchesAtMost(cfg, s, w, bound, false) <==> PatchesAtMost(cfg, s, w, bound, true)
  {
    forall events ensures LiveWhenReconciling(cfg, s, events) { LiveIfIdle(cfg, s, events); }
  }

  /** From every sane state, the patches of a template are bounded, and then by one, exactly when
      webhook and reconciler agree; without a live pod at every Reconcile, exactly when besides no
      route is effective. */
  lemma SettlesIff(cfg: Config, s: State, w: nat)
    requires Sane(s) && w < |s.workloads|
    ensures (exists bound :: PatchesAtMost(cfg, s, w, bound, true)) <==> Consistent(cfg)
    ensures Consistent(cfg) ==> PatchesAtMost(cfg, s, w, 1, true)
    ensures (exists bound :: PatchesAtMost(cfg, s, w, bound, false)) <==> Consistent(cfg) && !cfg.effective
  {
    if Consistent(cfg) {
      ConsistentBounds(cfg, s, w);
    } else {
      forall bound: nat ensures !PatchesAtMost(cfg, s, w, bound, true) { Unbounded(cfg, s, w, bound, true); }
    }
    if cfg.effective {
      forall bound: nat ensures !PatchesAtMost(cfg, s, w, bound, false) { Unbounded(cfg, s, w, bound, false); }
    } else {
      forall bound: nat ensures PatchesAtMost(cfg, s, w, bound, false) <==> PatchesAtMost(cfg, s, w, bound, true) {
        IdleNeedsNoPod(cfg, s, w, bound);
      }
    }
  }

  /* ---- The assumptions behind a sane state are needed ---- */

  predicate BadPodOf(cfg: Config, s: State, d: nat, p: nat) {
    p < |s.pods| && IsLive(s.pods[p], d) && !Good(cfg, s.pods[p])
  }

  /** DaemonSet `d` was never reported on, and its live pod `p` is not as wanted. */
  predicate Unreported(cfg: Config, s: State, d: nat, p: nat) {
    d < |s.workloads| && s.workloads[d].daemon && s.workloads[d].observed == 0 && BadPodOf(cfg, s, d, p)
  }

  ghost predicate NeverObserves(events: seq<Event>, d: nat) {
    forall i :: 0 <= i < |events| ==> events[i].Observe? ==> events[i].w != d
  }

  /** Everything else completes, `d` does nothing. */
  lemma OthersComplete(cfg: Config, s: State, d: nat, p: nat) returns (events: seq<Event>)
    requires Unreported(cfg, s, d, p)
    ensures KubernetesOnly(events) && NeverObserves(events, d)
    ensures var t := Run(cfg, s, events); SameTemplates(s, t) && !InProgress(t.workloads) && Unreported(cfg, t, d, p)
  {
    var first := TerminateAllBut(cfg, s, d);
    var u := Run(cfg, s, first);
    forall w | 0 <= w < |u.workloads| && w != d ensures CurrentOf(u, w) {
      assert forall q :: 0 <= q < |u.pods| ==> !IsLive(u.pods[q], w);
    }
    events := ObserveAllBut(cfg, s, first, d);
  }

  lemma UnreportedRound(cfg: Config, s: State, d: nat, p: nat, uuid: string) returns (events: seq<Event>)
    requires Unreported(cfg, s, d, p)
    ensures LiveWhenReconciling(cfg, s, events) && Failures(events, |s.workloads|) == 0 && NeverObserves(events, d)
    ensures Unreported(cfg, Run(cfg, s, events), d, p) && Raised(s, Run(cfg, s, events), 1)
  {
    var first := OthersComplete(cfg, s, d, p);
    var t := Run(cfg, s, first);
    assert HasLivePod(t) && NeedsState(cfg, t.pods) by {
      assert !t.pods[p].terminating && !Good(cfg, t.pods[p]);
      NeedsStateIff(cfg, t.pods);
    }
    PatchesEverything(cfg, t, uuid);
    events := ThenReconcile(cfg, s, first, uuid);
    ReconcileKeeps(cfg, t, uuid, |s.workloads|, d, p);
  }

  lemma ReconcileKeeps(cfg: Config, s: State, uuid: string, k: nat, d: nat, p: nat)
    requires Unreported(cfg, s, d, p)
    ensures Unreported(cfg, Step(cfg, s, Reconcile(uuid, k)), d, p)
  {
  }

  /** A DaemonSet whose controller never reports does not defer the reconciler: whatever the other
      workloads are and do, for every `n` some run patches every template `n` times. */
  lemma {:induction false} UnobservedDaemonSetRolls(cfg: Config, s: State, d: nat, p: nat, n: nat, uuids: nat -> string)
    returns (events: seq<Event>)
    requires Unreported(cfg, s, d, p)
    ensures LiveWhenReconciling(cfg, s, events) && Failures(events, |s.workloads|) == 0 && NeverObserves(events, d)
    ensures Raised(s, Run(cfg, s, events), n)
    decreases n
  {
    events := [];
    if n > 0 {
      var first := UnreportedRound(cfg, s, d, p, uuids(n));
      var rest := UnobservedDaemonSetRolls(cfg, Run(cfg, s, first), d, p, n - 1, uuids);
      events := first + rest;
      RunConcat(cfg, s, first, rest);
      LiveConcat(cfg, s, first, rest);
      FailuresConcat(first, rest, |s.workloads|);
    }
  }

  /** The pods are listed before the workloads. A pod that was still live and unwanted in that older
      list makes an otherwise settled Reconcile patch every workload once more. */
  lemma StalePodListPatchesAgain(cfg: Config, s: State, listed: seq<Pod>, uuid: string, k: nat, w: nat)
    requires Sane(s) && Settled(cfg, s) && !InProgress(s.workloads) && w < |s.workloads| <= k
    ensures Reconciled(cfg, listed, s.workloads, uuid, k)[w].rev == s.workloads[w].rev + 1 <==>
              || (exists p :: 0 <= p < |listed| && !listed[p].terminating && !Good(cfg, listed[p]))
              || (cfg.effective && forall p :: 0 <= p < |listed| ==> listed[p].terminating)
  {
    NeedsStateIff(cfg, listed);
    assert !NeedsHash(cfg, s.workloads[w]);
  }
}
