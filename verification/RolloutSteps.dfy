/** The rollout loop call by call (internal/controller/gateway.go): pods, Deployments and DaemonSets are
    listed one after the other, the decision is taken on those lists, and the templates are patched
    one by one. Kubernetes may act between any two calls. */
module RolloutSteps {
  import opened Text
  import opened Rollout

  /** How far the running pass has come, with what it has listed so far. */
  datatype Pass =
    | Idle
    | HavePods(pods: seq<Pod>)
    | HaveDeployments(pods: seq<Pod>, seen: seq<Workload>)
    | HaveAll(pods: seq<Pod>, seen: seq<Workload>)
    | Patching(uuid: string, needsState: bool, seen: seq<Workload>, next: nat)

  datatype Full = Full(s: State, pass: Pass)

  datatype Move =
    | Kube(e: Event)              // any event of Rollout but an atomic Reconcile
    | ListPods
    | ListDeployments
    | ListDaemonSets
    | GiveUp                      // a list, the filter config or a pod annotation fails: no patch is made
    | Decide(uuid: string)
    | Patch(ok: bool, lost: bool) // the next workload; a failing call may have taken effect

  /** What is known after the last list: Deployments as they were, DaemonSets as they are. */
  function Joined(seen: seq<Workload>, now: seq<Workload>): seq<Workload> {
    seq(|now|, i requires 0 <= i < |now| => if i < |seen| && !now[i].daemon then seen[i] else now[i])
  }

  /** The pass goes on with workload `next`, or is complete. */
  function Onward(uuid: string, needsState: bool, seen: seq<Workload>, next: nat): Pass {
    if next < |seen| then Patching(uuid, needsState, seen, next) else Idle
  }

  function Do(cfg: Config, f: Full, m: Move): Full {
    match m
    case Kube(e) => if e.Reconcile? then f else f.(s := Step(cfg, f.s, e))
    case ListPods => if f.pass.Idle? then f.(pass := HavePods(f.s.pods)) else f
    case ListDeployments =>
      if f.pass.HavePods? then f.(pass := HaveDeployments(f.pass.pods, f.s.workloads)) else f
    case ListDaemonSets =>
      if f.pass.HaveDeployments? then f.(pass := HaveAll(f.pass.pods, Joined(f.pass.seen, f.s.workloads))) else f
    case GiveUp => if f.pass.Patching? then f else f.(pass := Idle)
    case Decide(uuid) =>
      if !f.pass.HaveAll? then f
      else if InProgress(f.pass.seen) then f.(pass := Idle)
      else f.(pass := Onward(uuid, NeedsState(cfg, f.pass.pods), f.pass.seen, 0))
    case Patch(ok, lost) =>
      if !f.pass.Patching? || f.pass.next >= |f.pass.seen| || f.pass.next >= |f.s.workloads| then f
      else PatchNext(cfg, f.s, f.pass, ok, lost)
  }

  /** The listing asks for a patch of this workload. */
  predicate Wanted(cfg: Config, p: Pass)
    requires p.Patching? && p.next < |p.seen|
  {
    p.needsState || NeedsHash(cfg, p.seen[p.next])
  }

  function PatchNext(cfg: Config, s: State, p: Pass, ok: bool, lost: bool): Full
    requires p.Patching? && p.next < |p.seen| && p.next < |s.workloads|
  {
    var i := p.next;
    var patched := PatchOf(cfg, p.uuid, p.needsState, p.seen[i], s.workloads[i]);
    Full(if ok || lost then s.(workloads := s.workloads[i := patched]) else s,
         if ok || !Wanted(cfg, p) then Onward(p.uuid, p.needsState, p.seen, i + 1) else Idle)
  }

  function DoAll(cfg: Config, f: Full, moves: seq<Move>): Full
    decreases |moves|
  {
    if moves == [] then f else DoAll(cfg, Do(cfg, f, moves[0]), moves[1..])
  }

  /** Whenever pods are listed while a route is effective, some pod is live. */
  ghost predicate LiveWhenListing(cfg: Config, f: Full, moves: seq<Move>)
    decreases |moves|
  {
    moves != [] ==>
      && (moves[0].ListPods? && f.pass.Idle? && cfg.effective ==> HasLivePod(f.s))
      && LiveWhenListing(cfg, Do(cfg, f, moves[0]), moves[1..])
  }

  function Failed(moves: seq<Move>): nat {
    if moves == [] then 0 else (if moves[0].Patch? && !moves[0].ok then 1 else 0) + Failed(moves[1..])
  }

  /* ---- What Kubernetes can change under a running pass ---- */

  /** Templates and hashes stay, and every live pod was there before or is as wanted. */
  ghost predicate Evolves(cfg: Config, s: State, t: State) {
    && |t.workloads| == |s.workloads|
    && (forall w :: 0 <= w < |s.workloads| ==> SameTemplate(s.workloads[w], t.workloads[w]))
    && forall p :: 0 <= p < |t.pods| && !t.pods[p].terminating ==> t.pods[p] in s.pods || Good(cfg, t.pods[p])
  }

  predicate SameTemplate(a: Workload, b: Workload) { a.rev == b.rev && a.hash == b.hash && a.daemon == b.daemon }

  lemma KubeEvolves(cfg: Config, s: State, e: Event)
    requires Sane(s) && Consistent(cfg) && !e.Reconcile?
    ensures Evolves(cfg, s, Step(cfg, s, e))
  {
    if e.Create? && e.w < |s.workloads| {
      CreatedIsGood(cfg, s, e.w, e.rev);
      PodAdded(cfg, s, Pod(e.w, e.rev, false, Admit(cfg, s.workloads[e.w].template)));
    } else {
      NothingCreated(cfg, s, e);
    }
  }

  lemma NothingCreated(cfg: Config, s: State, e: Event)
    requires !e.Reconcile? && !(e.Create? && e.w < |s.workloads|)
    ensures Evolves(cfg, s, Step(cfg, s, e))
  {
    PodsFewer(cfg, s, Step(cfg, s, e));
  }

  lemma PodAdded(cfg: Config, s: State, p: Pod)
    requires Good(cfg, p)
    ensures Evolves(cfg, s, s.(pods := s.pods + [p])) && Evolves(cfg, s, s)
  {
  }

  lemma PodsFewer(cfg: Config, s: State, t: State)
    requires |t.workloads| == |s.workloads|
    requires forall w :: 0 <= w < |s.workloads| ==> SameTemplate(s.workloads[w], t.workloads[w])
    requires forall p :: 0 <= p < |t.pods| ==> t.pods[p].terminating || t.pods[p] in s.pods
    ensures Evolves(cfg, s, t)
  {
  }

  ghost predicate PodsGood(cfg: Config, pods: seq<Pod>) {
    forall p :: 0 <= p < |pods| && !pods[p].terminating ==> Good(cfg, pods[p])
  }

  /** If the list shows only wanted pods, there are only wanted pods. */
  ghost predicate Linked(cfg: Config, listed: seq<Pod>, s: State) { PodsGood(cfg, listed) ==> AllGood(cfg, s) }

  lemma GoodEvolves(cfg: Config, s: State, t: State)
    requires Evolves(cfg, s, t) && AllGood(cfg, s)
    ensures AllGood(cfg, t)
  {
  }

  /** From workload `from` on the listing still has the hashes of the moment. */
  ghost predicate SameHashes(seen: seq<Workload>, s: State, from: nat) {
    |seen| == |s.workloads| && forall i :: from <= i < |seen| ==> seen[i].hash == s.workloads[i].hash
  }

  lemma HashesEvolve(cfg: Config, seen: seq<Workload>, s: State, t: State, from: nat)
    requires Evolves(cfg, s, t) && SameHashes(seen, s, from)
    ensures SameHashes(seen, t, from)
  {
    forall i | from <= i < |seen| ensures seen[i].hash == t.workloads[i].hash {
      assert SameTemplate(s.workloads[i], t.workloads[i]);
    }
  }

  /* ---- The first pass that completes ---- */

  /** What a pass that started in any state may rely on. */
  ghost predicate Early(cfg: Config, f: Full) {
    match f.pass
    case Idle => true
    case HavePods(pods) => Linked(cfg, pods, f.s)
    case HaveDeployments(pods, seen) => Linked(cfg, pods, f.s) && SameHashes(seen, f.s, 0)
    case HaveAll(pods, seen) => Linked(cfg, pods, f.s) && SameHashes(seen, f.s, 0)
    case Patching(_, needsState, seen, next) =>
      && next < |seen| && SameHashes(seen, f.s, next) && SettledBefore(cfg, f.s, next)
      && (!needsState ==> AllGood(cfg, f.s))
  }

  /** The workloads before `next` have nothing left to ask for. */
  ghost predicate SettledBefore(cfg: Config, s: State, next: nat) {
    && (forall w :: 0 <= w < next && w < |s.workloads| ==> !NeedsHash(cfg, s.workloads[w]))
    && (forall p :: 0 <= p < |s.pods| && s.pods[p].owner < next ==> GoodIfCurrent(cfg, s, s.pods[p]))
  }

  lemma SettledBeforeEvolves(cfg: Config, s: State, t: State, next: nat)
    requires Evolves(cfg, s, t) && SettledBefore(cfg, s, next)
    ensures SettledBefore(cfg, t, next)
  {
    forall p | 0 <= p < |t.pods| && t.pods[p].owner < next ensures GoodIfCurrent(cfg, t, t.pods[p]) {
      if !t.pods[p].terminating && t.pods[p] in s.pods {
        var q :| 0 <= q < |s.pods| && s.pods[q] == t.pods[p];
        assert GoodIfCurrent(cfg, s, s.pods[q]);
      }
    }
  }

  lemma KubeEarly(cfg: Config, f: Full, e: Event)
    requires Sane(f.s) && Consistent(cfg) && Early(cfg, f) && !e.Reconcile?
    ensures Early(cfg, Do(cfg, f, Kube(e)))
  {
    var t := Step(cfg, f.s, e);
    KubeEvolves(cfg, f.s, e);
    if AllGood(cfg, f.s) {
      GoodEvolves(cfg, f.s, t);
    }
    match f.pass {
      case Idle =>
      case HavePods(_) =>
      case HaveDeployments(_, seen) => HashesEvolve(cfg, seen, f.s, t, 0);
      case HaveAll(_, seen) => HashesEvolve(cfg, seen, f.s, t, 0);
      case Patching(_, _, seen, next) =>
        HashesEvolve(cfg, seen, f.s, t, next);
        SettledBeforeEvolves(cfg, f.s, t, next);
    }
  }

  /** The patch of workload `i` took effect, or none was wanted. */
  lemma PatchSettles(cfg: Config, s: State, p: Pass)
    requires Sane(s) && Early(cfg, Full(s, p)) && p.Patching? && p.next < |s.workloads|
    ensures SettledBefore(cfg, PatchNext(cfg, s, p, true, false).s, p.next + 1)
    ensures !p.needsState ==> AllGood(cfg, PatchNext(cfg, s, p, true, false).s)
  {
    var t, i := PatchNext(cfg, s, p, true, false).s, p.next;
    forall q | 0 <= q < |t.pods| && t.pods[q].owner < i + 1 ensures GoodIfCurrent(cfg, t, t.pods[q]) {
      if t.pods[q].owner < i {
        assert GoodIfCurrent(cfg, s, s.pods[q]);
      }
    }
  }

  lemma PatchEarly(cfg: Config, f: Full, ok: bool, lost: bool)
    requires Sane(f.s) && Early(cfg, f) && f.pass.Patching?
    ensures var g := Do(cfg, f, Patch(ok, lost));
            && Early(cfg, g)
            && (g.pass.Idle? && (ok || !Wanted(cfg, f.pass)) ==> Settled(cfg, g.s))
  {
    var g := Do(cfg, f, Patch(ok, lost));
    if ok || !Wanted(cfg, f.pass) {
      PatchSettles(cfg, f.s, f.pass);
      assert f.s.workloads[f.pass.next := f.s.workloads[f.pass.next]] == f.s.workloads;
      assert g.s == PatchNext(cfg, f.s, f.pass, true, false).s;
      if g.pass.Idle? {
        SettledBeforeAll(cfg, g.s, f.pass.next + 1);
      }
    }
  }

  lemma SettledBeforeAll(cfg: Config, s: State, n: nat)
    requires SettledBefore(cfg, s, n) && n >= |s.workloads|
    ensures Settled(cfg, s)
  {
    forall p | 0 <= p < |s.pods| ensures GoodIfCurrent(cfg, s, s.pods[p]) {
      if s.pods[p].owner < |s.workloads| {
        assert s.pods[p].owner < n;
      }
    }
  }

  lemma DecideEarly(cfg: Config, f: Full, uuid: string)
    requires Sane(f.s) && Early(cfg, f) && f.pass.HaveAll?
    ensures Early(cfg, Do(cfg, f, Decide(uuid)))
  {
    NeedsStateIff(cfg, f.pass.pods);
  }

  lemma EarlyStep(cfg: Config, f: Full, m: Move)
    requires Sane(f.s) && Consistent(cfg) && Early(cfg, f)
    ensures Early(cfg, Do(cfg, f, m))
  {
    match m
    case Kube(e) => if !e.Reconcile? { KubeEarly(cfg, f, e); }
    case Decide(uuid) => if f.pass.HaveAll? { DecideEarly(cfg, f, uuid); }
    case Patch(ok, lost) => if f.pass.Patching? { PatchEarly(cfg, f, ok, lost); }
    case _ =>
  }

  lemma PatchNextSane(cfg: Config, s: State, p: Pass, ok: bool, lost: bool)
    requires Sane(s) && p.Patching? && p.next < |p.seen| && p.next < |s.workloads|
    ensures Sane(PatchNext(cfg, s, p, ok, lost).s)
  {
    assert SaneWorkload(s.workloads[p.next]);
  }

  lemma DoSane(cfg: Config, f: Full, m: Move)
    requires Sane(f.s)
    ensures Sane(Do(cfg, f, m).s)
  {
    match m
    case Kube(e) => StepSane(cfg, f.s, e);
    case Patch(ok, lost) =>
      if f.pass.Patching? && f.pass.next < |f.pass.seen| && f.pass.next < |f.s.workloads| {
        PatchNextSane(cfg, f.s, f.pass, ok, lost);
      }
    case _ =>
  }

  /* ---- After it ---- */

  ghost predicate HashesDone(cfg: Config, s: State) {
    forall w :: 0 <= w < |s.workloads| ==> !NeedsHash(cfg, s.workloads[w])
  }

  /** Live pods of the Deployments are as wanted. */
  ghost predicate DeploymentsGood(cfg: Config, s: State) {
    forall p :: 0 <= p < |s.pods| && !s.pods[p].terminating ==>
      s.pods[p].owner < |s.workloads| ==> !s.workloads[s.pods[p].owner].daemon ==> Good(cfg, s.pods[p])
  }

  predicate DeploymentsQuiet(ws: seq<Workload>) { forall i :: 0 <= i < |ws| && !ws[i].daemon ==> !RollingOut(ws[i]) }

  /** A pass of a settled loop: once it has seen no rollout in progress, all live pods are as wanted,
      whatever its older pod list says. */
  ghost predicate Late(cfg: Config, f: Full) {
    Settled(cfg, f.s) &&
    match f.pass
    case Idle => true
    case HavePods(_) => true
    case HaveDeployments(_, seen) =>
      SameHashes(seen, f.s, 0) && SameKinds(seen, f.s) && (DeploymentsQuiet(seen) ==> DeploymentsGood(cfg, f.s))
    case HaveAll(_, seen) => SameHashes(seen, f.s, 0) && (!InProgress(seen) ==> AllGood(cfg, f.s))
    case Patching(_, _, seen, next) => next < |seen| && SameHashes(seen, f.s, 0) && AllGood(cfg, f.s)
  }

  ghost predicate SameKinds(seen: seq<Workload>, s: State) {
    |seen| == |s.workloads| && forall i :: 0 <= i < |seen| ==> seen[i].daemon == s.workloads[i].daemon
  }

  lemma SettledEvolves(cfg: Config, s: State, e: Event)
    requires Sane(s) && Settled(cfg, s) && Consistent(cfg) && !e.Reconcile?
    ensures Settled(cfg, Step(cfg, s, e))
  {
    StepSettled(cfg, s, e);
  }

  lemma DeploymentsGoodEvolves(cfg: Config, s: State, t: State)
    requires Evolves(cfg, s, t) && DeploymentsGood(cfg, s)
    ensures DeploymentsGood(cfg, t)
  {
    forall p | 0 <= p < |t.pods| && !t.pods[p].terminating && t.pods[p].owner < |t.workloads|
               && !t.workloads[t.pods[p].owner].daemon
      ensures Good(cfg, t.pods[p])
    {
      assert SameTemplate(s.workloads[t.pods[p].owner], t.workloads[t.pods[p].owner]);
    }
  }

  lemma KubeLate(cfg: Config, f: Full, e: Event)
    requires Sane(f.s) && Consistent(cfg) && Late(cfg, f) && !e.Reconcile?
    ensures Late(cfg, Do(cfg, f, Kube(e)))
  {
    var t := Step(cfg, f.s, e);
    KubeEvolves(cfg, f.s, e);
    SettledEvolves(cfg, f.s, e);
    match f.pass {
      case Idle =>
      case HavePods(_) =>
      case HaveDeployments(_, seen) =>
        HashesEvolve(cfg, seen, f.s, t, 0);
        KindsEvolve(cfg, seen, f.s, t);
        if DeploymentsGood(cfg, f.s) {
          DeploymentsGoodEvolves(cfg, f.s, t);
        }
      case HaveAll(_, seen) =>
        HashesEvolve(cfg, seen, f.s, t, 0);
        if AllGood(cfg, f.s) {
          GoodEvolves(cfg, f.s, t);
        }
      case Patching(_, _, seen, next) =>
        HashesEvolve(cfg, seen, f.s, t, 0);
        GoodEvolves(cfg, f.s, t);
    }
  }

  lemma KindsEvolve(cfg: Config, seen: seq<Workload>, s: State, t: State)
    requires Evolves(cfg, s, t) && SameKinds(seen, s)
    ensures SameKinds(seen, t)
  {
    forall i | 0 <= i < |seen| ensures seen[i].daemon == t.workloads[i].daemon {
      assert SameTemplate(s.workloads[i], t.workloads[i]);
    }
  }

  /** A settled workload that is not mid-rollout has only wanted pods. */
  lemma QuietOwnerGood(cfg: Config, s: State, p: nat)
    requires Sane(s) && Settled(cfg, s) && p < |s.pods| && !s.pods[p].terminating
    requires s.pods[p].owner < |s.workloads| && !RollingOut(s.workloads[s.pods[p].owner])
    ensures Good(cfg, s.pods[p])
  {
    assert GoodIfCurrent(cfg, s, s.pods[p]);
  }

  lemma ListDeploymentsLate(cfg: Config, f: Full)
    requires Sane(f.s) && Late(cfg, f) && f.pass.HavePods?
    ensures Late(cfg, Do(cfg, f, ListDeployments))
  {
    var s := f.s;
    if DeploymentsQuiet(s.workloads) {
      forall p | 0 <= p < |s.pods| && !s.pods[p].terminating && s.pods[p].owner < |s.workloads|
                 && !s.workloads[s.pods[p].owner].daemon
        ensures Good(cfg, s.pods[p])
      {
        QuietOwnerGood(cfg, s, p);
      }
    }
  }

  lemma ListDaemonSetsLate(cfg: Config, f: Full)
    requires Sane(f.s) && Late(cfg, f) && f.pass.HaveDeployments?
    ensures Late(cfg, Do(cfg, f, ListDaemonSets))
  {
    var s, seen := f.s, f.pass.seen;
    var joined := Joined(seen, s.workloads);
    if !InProgress(joined) {
      forall i | 0 <= i < |seen| && !seen[i].daemon ensures !RollingOut(seen[i]) { assert joined[i] == seen[i]; }
      assert DeploymentsGood(cfg, s);
      forall p | 0 <= p < |s.pods| && !s.pods[p].terminating ensures Good(cfg, s.pods[p]) {
        var w := s.pods[p].owner;
        if s.workloads[w].daemon {
          assert joined[w] == s.workloads[w];
          QuietOwnerGood(cfg, s, p);
        }
      }
    }
  }

  lemma PatchLate(cfg: Config, f: Full, ok: bool, lost: bool)
    requires Sane(f.s) && Late(cfg, f) && f.pass.Patching?
    ensures var g := Do(cfg, f, Patch(ok, lost)); Late(cfg, g) && AllGood(cfg, g.s)
  {
    var g := Do(cfg, f, Patch(ok, lost));
    assert !NeedsHash(cfg, f.s.workloads[f.pass.next]);
    forall p | 0 <= p < |g.s.pods| ensures GoodIfCurrent(cfg, g.s, g.s.pods[p]) {
      assert g.s.pods[p] == f.s.pods[p];
    }
  }

  lemma LateStep(cfg: Config, f: Full, m: Move)
    requires Sane(f.s) && Consistent(cfg) && Late(cfg, f)
    ensures Late(cfg, Do(cfg, f, m))
    ensures f.pass.Patching? ==> AllGood(cfg, Do(cfg, f, m).s)
  {
    match m
    case Kube(e) =>
      if !e.Reconcile? {
        KubeLate(cfg, f, e);
      }
    case ListDeployments => if f.pass.HavePods? { ListDeploymentsLate(cfg, f); }
    case ListDaemonSets => if f.pass.HaveDeployments? { ListDaemonSetsLate(cfg, f); }
    case Patch(ok, lost) => if f.pass.Patching? { PatchLate(cfg, f, ok, lost); }
    case _ =>
  }

  /* ---- And for good ---- */

  /** All live pods are as wanted, and the running pass has seen as much. */
  ghost predicate Final(cfg: Config, f: Full) {
    AllGood(cfg, f.s) && HashesDone(cfg, f.s) &&
    match f.pass
    case Idle => true
    case HavePods(pods) => !NeedsState(cfg, pods)
    case HaveDeployments(pods, seen) => !NeedsState(cfg, pods) && SameHashes(seen, f.s, 0)
    case HaveAll(pods, seen) => !NeedsState(cfg, pods) && SameHashes(seen, f.s, 0)
    case Patching(_, needsState, seen, next) => !needsState && next < |seen| && SameHashes(seen, f.s, 0)
  }

  lemma KubeFinal(cfg: Config, f: Full, e: Event)
    requires Sane(f.s) && Consistent(cfg) && Final(cfg, f) && !e.Reconcile?
    ensures Final(cfg, Do(cfg, f, Kube(e))) && Raised(f.s, Do(cfg, f, Kube(e)).s, 0)
  {
    var t := Step(cfg, f.s, e);
    KubeEvolves(cfg, f.s, e);
    GoodEvolves(cfg, f.s, t);
    assert forall w :: 0 <= w < |f.s.workloads| ==> SameTemplate(f.s.workloads[w], t.workloads[w]);
    match f.pass {
      case Idle =>
      case HavePods(_) =>
      case HaveDeployments(_, seen) => HashesEvolve(cfg, seen, f.s, t, 0);
      case HaveAll(_, seen) => HashesEvolve(cfg, seen, f.s, t, 0);
      case Patching(_, _, seen, _) => HashesEvolve(cfg, seen, f.s, t, 0);
    }
  }

  lemma FinalStep(cfg: Config, f: Full, m: Move)
    requires Sane(f.s) && Consistent(cfg) && Final(cfg, f)
    requires m.ListPods? && f.pass.Idle? && cfg.effective ==> HasLivePod(f.s)
    ensures Final(cfg, Do(cfg, f, m)) && Raised(f.s, Do(cfg, f, m).s, 0)
  {
    match m
    case Kube(e) => if !e.Reconcile? { KubeFinal(cfg, f, e); }
    case ListPods => NeedsStateIff(cfg, f.s.pods);
    case Patch(ok, lost) =>
      if f.pass.Patching? {
        assert !NeedsHash(cfg, f.s.workloads[f.pass.next]);
        assert !Wanted(cfg, f.pass);
        assert f.s.workloads[f.pass.next := f.s.workloads[f.pass.next]] == f.s.workloads;
      }
    case _ =>
  }

  /* ---- The bound ---- */

  lemma {:induction false} NeverAgain(cfg: Config, f: Full, moves: seq<Move>, w: nat)
    requires Sane(f.s) && Consistent(cfg) && Final(cfg, f) && LiveWhenListing(cfg, f, moves) && w < |f.s.workloads|
    ensures var t := DoAll(cfg, f, moves).s; w < |t.workloads| && t.workloads[w].rev == f.s.workloads[w].rev
    decreases |moves|
  {
    if moves != [] {
      FinalStep(cfg, f, moves[0]);
      DoSane(cfg, f, moves[0]);
      NeverAgain(cfg, Do(cfg, f, moves[0]), moves[1..], w);
    }
  }

  /** The running pass has dealt with workload `w`. */
  predicate Past(f: Full, w: nat) { f.pass.Patching? && f.pass.next > w }

  /** One move changes a revision by at most one, and only by the patch of that workload. */
  lemma MoveRev(cfg: Config, f: Full, m: Move, w: nat)
    requires w < |f.s.workloads|
    ensures var g := Do(cfg, f, m);
            && |g.s.workloads| == |f.s.workloads|
            && f.s.workloads[w].rev <= g.s.workloads[w].rev <= f.s.workloads[w].rev + 1
            && (g.s.workloads[w].rev > f.s.workloads[w].rev ==>
                  m.Patch? && f.pass.Patching? && f.pass.next == w && (g.pass.Idle? || Past(g, w)))
  {
    if m.Kube? {
      StepRev(cfg, f.s, m.e, w);
    }
  }

  /** One move from a settled state: it ends the pass, or keeps what is left to patch. */
  lemma LateRev(cfg: Config, f: Full, m: Move, w: nat)
    requires Sane(f.s) && Consistent(cfg) && Late(cfg, f) && w < |f.s.workloads|
    ensures var g := Do(cfg, f, m);
            && Sane(g.s) && Late(cfg, g) && w < |g.s.workloads|
            && (f.pass.Patching? && g.pass.Idle? ==>
                  Final(cfg, g) && g.s.workloads[w].rev <= f.s.workloads[w].rev + (if Past(f, w) then 0 else 1))
            && (!(f.pass.Patching? && g.pass.Idle?) ==>
                  g.s.workloads[w].rev + (if Past(g, w) then 0 else 1)
                  <= f.s.workloads[w].rev + (if Past(f, w) then 0 else 1))
  {
    LateStep(cfg, f, m);
    DoSane(cfg, f, m);
    MoveRev(cfg, f, m, w);
  }

  /** From a settled state on, failures or not, each template is patched at most once more. */
  lemma {:induction false} AtMostOnceMore(cfg: Config, f: Full, moves: seq<Move>, w: nat)
    requires Sane(f.s) && Consistent(cfg) && Late(cfg, f) && LiveWhenListing(cfg, f, moves) && w < |f.s.workloads|
    ensures var t := DoAll(cfg, f, moves).s;
            w < |t.workloads| && t.workloads[w].rev <= f.s.workloads[w].rev + (if Past(f, w) then 0 else 1)
    decreases |moves|
  {
    if moves != [] {
      var g := Do(cfg, f, moves[0]);
      LateRev(cfg, f, moves[0], w);
      if f.pass.Patching? && g.pass.Idle? {
        NeverAgain(cfg, g, moves[1..], w);
      } else {
        AtMostOnceMore(cfg, g, moves[1..], w);
      }
    }
  }

  /** In every run of single calls from every sane state, whatever happens between them, each template
      is patched at most twice, and once more for each failing Patch call. */
  lemma {:induction false} PatchesBoundedInSteps(cfg: Config, f: Full, moves: seq<Move>, w: nat)
    requires Sane(f.s) && Consistent(cfg) && Early(cfg, f) && LiveWhenListing(cfg, f, moves) && w < |f.s.workloads|
    ensures var t := DoAll(cfg, f, moves).s;
            w < |t.workloads|
            && t.workloads[w].rev <= f.s.workloads[w].rev + (if Past(f, w) then 1 else 2) + Failed(moves)
    decreases |moves|
  {
    if moves != [] {
      var m, rest := moves[0], moves[1..];
      var g := Do(cfg, f, m);
      EarlyStep(cfg, f, m);
      DoSane(cfg, f, m);
      MoveRev(cfg, f, m, w);
      if f.pass.Patching? && m.Patch? && g.pass.Idle? && (m.ok || !Wanted(cfg, f.pass)) {
        PatchEarly(cfg, f, m.ok, m.lost);
        AtMostOnceMore(cfg, g, rest, w);
      } else {
        PatchesBoundedInSteps(cfg, g, rest, w);
      }
    }
  }

  /* ---- Runs of single calls put together ---- */

  lemma {:induction false} DoConcat(cfg: Config, f: Full, a: seq<Move>, b: seq<Move>)
    ensures DoAll(cfg, f, a + b) == DoAll(cfg, DoAll(cfg, f, a), b)
    ensures Failed(a + b) == Failed(a) + Failed(b)
    ensures LiveWhenListing(cfg, f, a) && LiveWhenListing(cfg, DoAll(cfg, f, a), b) ==> LiveWhenListing(cfg, f, a + b)
    decreases |a|
  {
    if a == [] {
      assert a + b == b;
    } else {
      assert (a + b)[0] == a[0] && (a + b)[1..] == a[1..] + b;
      DoConcat(cfg, Do(cfg, f, a[0]), a[1..], b);
    }
  }

  /** A single move as a run. */
  lemma DoOne(cfg: Config, f: Full, m: Move)
    ensures DoAll(cfg, f, [m]) == Do(cfg, f, m) && Failed([m]) == if m.Patch? && !m.ok then 1 else 0
    ensures LiveWhenListing(cfg, f, [m]) <==> (m.ListPods? && f.pass.Idle? && cfg.effective ==> HasLivePod(f.s))
  {
    assert [m][1..] == [];
  }

  /** From `f` the moves lead to `g`, with no failing Patch and, if `live`, a live pod at every listing. */
  ghost predicate Leads(cfg: Config, f: Full, moves: seq<Move>, g: Full, live: bool) {
    DoAll(cfg, f, moves) == g && Failed(moves) == 0 && (live ==> LiveWhenListing(cfg, f, moves))
  }

  lemma LeadsThen(cfg: Config, f: Full, a: seq<Move>, g: Full, b: seq<Move>, h: Full, live: bool)
    requires Leads(cfg, f, a, g, live) && Leads(cfg, g, b, h, live)
    ensures Leads(cfg, f, a + b, h, live)
  {
    DoConcat(cfg, f, a, b);
  }

  lemma LeadsBy(cfg: Config, f: Full, m: Move, live: bool)
    requires m.Patch? ==> m.ok
    requires live && m.ListPods? && cfg.effective ==> HasLivePod(f.s)
    ensures Leads(cfg, f, [m], Do(cfg, f, m), live)
  {
    DoOne(cfg, f, m);
  }

  /** Every workload is patched in turn. */
  lemma {:induction false} PatchRest(cfg: Config, s: State, p: Pass, live: bool) returns (moves: seq<Move>, t: State)
    requires p.Patching? && p.next < |p.seen| == |s.workloads|
    ensures Leads(cfg, Full(s, p), moves, Full(t, Idle), live)
    ensures t.pods == s.pods && |t.workloads| == |s.workloads|
    ensures forall w :: 0 <= w < p.next ==> t.workloads[w] == s.workloads[w]
    ensures forall w :: p.next <= w < |s.workloads| ==>
              t.workloads[w] == PatchOf(cfg, p.uuid, p.needsState, p.seen[w], s.workloads[w])
    decreases |p.seen| - p.next
  {
    var m := Patch(true, false);
    var g := Do(cfg, Full(s, p), m);
    LeadsBy(cfg, Full(s, p), m, live);
    if p.next + 1 == |p.seen| {
      moves, t := [m], g.s;
    } else {
      var rest: seq<Move>;
      rest, t := PatchRest(cfg, g.s, g.pass, live);
      moves := [m] + rest;
      LeadsThen(cfg, Full(s, p), [m], g, rest, Full(t, Idle), live);
    }
  }

  /** The rest of a pass that has its pods, with nothing in between: it goes by that pod list. */
  lemma RestOfPass(cfg: Config, s: State, pods: seq<Pod>, uuid: string, live: bool) returns (moves: seq<Move>)
    ensures Leads(cfg, Full(s, HavePods(pods)), moves,
                  Full(s.(workloads := Reconciled(cfg, pods, s.workloads, uuid, |s.workloads|)), Idle), live)
  {
    var f0 := Full(s, HavePods(pods));
    var f1 := Full(s, HaveDeployments(pods, s.workloads));
    var f2 := Full(s, HaveAll(pods, s.workloads));
    assert Joined(s.workloads, s.workloads) == s.workloads;
    LeadsBy(cfg, f0, ListDeployments, live);
    LeadsBy(cfg, f1, ListDaemonSets, live);
    LeadsBy(cfg, f2, Decide(uuid), live);
    LeadsThen(cfg, f0, [ListDeployments], f1, [ListDaemonSets], f2, live);
    var f3 := Do(cfg, f2, Decide(uuid));
    moves := [ListDeployments] + [ListDaemonSets] + [Decide(uuid)];
    LeadsThen(cfg, f0, [ListDeployments] + [ListDaemonSets], f2, [Decide(uuid)], f3, live);
    if f3.pass.Patching? {
      var patches, t := PatchRest(cfg, s, f3.pass, live);
      assert t.workloads == Reconciled(cfg, pods, s.workloads, uuid, |s.workloads|);
      LeadsThen(cfg, f0, moves, f3, patches, Full(t, Idle), live);
      moves := moves + patches;
    } else {
      assert Reconciled(cfg, pods, s.workloads, uuid, |s.workloads|) == s.workloads;
    }
  }

  /** Kubernetes events as moves. */
  lemma {:induction false} KubeMoves(cfg: Config, f: Full, events: seq<Event>, live: bool) returns (moves: seq<Move>)
    requires KubernetesOnly(events)
    ensures Leads(cfg, f, moves, f.(s := Run(cfg, f.s, events)), live)
    decreases |events|
  {
    moves := [];
    if events != [] {
      var g := Do(cfg, f, Kube(events[0]));
      var rest := KubeMoves(cfg, g, events[1..], live);
      LeadsBy(cfg, f, Kube(events[0]), live);
      LeadsThen(cfg, f, [Kube(events[0])], g, rest, f.(s := Run(cfg, f.s, events)), live);
      moves := [Kube(events[0])] + rest;
    }
  }

  /** An atomic Reconcile is a run of single calls with nothing in between. */
  lemma OnePass(cfg: Config, s: State, uuid: string, upTo: nat, live: bool) returns (moves: seq<Move>)
    requires upTo >= |s.workloads| && (live && cfg.effective ==> HasLivePod(s))
    ensures Leads(cfg, Full(s, Idle), moves, Full(Step(cfg, s, Reconcile(uuid, upTo)), Idle), live)
  {
    var rest := RestOfPass(cfg, s, s.pods, uuid, live);
    var g := Full(s, HavePods(s.pods));
    LeadsBy(cfg, Full(s, Idle), ListPods, live);
    var ws := s.workloads;
    assert Reconciled(cfg, s.pods, ws, uuid, upTo) == Reconciled(cfg, s.pods, ws, uuid, |ws|);
    LeadsThen(cfg, Full(s, Idle), [ListPods], g, rest, Full(Step(cfg, s, Reconcile(uuid, upTo)), Idle), live);
    moves := [ListPods] + rest;
  }

  /** Every atomic run without failures is a run of single calls. */
  lemma {:induction false} Expanded(cfg: Config, s: State, events: seq<Event>, live: bool) returns (moves: seq<Move>)
    requires Failures(events, |s.workloads|) == 0 && (live ==> LiveWhenReconciling(cfg, s, events))
    ensures Leads(cfg, Full(s, Idle), moves, Full(Run(cfg, s, events), Idle), live)
    decreases |events|
  {
    moves := [];
    if events != [] {
      var e, t := events[0], Step(cfg, s, events[0]);
      var first: seq<Move>;
      if e.Reconcile? {
        first := OnePass(cfg, s, e.uuid, e.upTo, live);
      } else {
        first := [Kube(e)];
        LeadsBy(cfg, Full(s, Idle), Kube(e), live);
      }
      var rest := Expanded(cfg, t, events[1..], live);
      LeadsThen(cfg, Full(s, Idle), first, Full(t, Idle), rest, Full(Run(cfg, s, events), Idle), live);
      moves := first + rest;
    }
  }

  /* ---- The bound is attained, and exists exactly when webhook and reconciler agree ---- */

  /** One pass that patches everything, and the pods listed again before anything else happens. */
  lemma PatchAndList(cfg: Config, s: State, uuid: string) returns (moves: seq<Move>, t: State)
    requires !InProgress(s.workloads) && NeedsState(cfg, s.pods) && HasLivePod(s)
    ensures Leads(cfg, Full(s, Idle), moves, Full(t, HavePods(s.pods)), true) && Raised(s, t, 1)
  {
    var a := OnePass(cfg, s, uuid, |s.workloads|, true);
    PatchesEverything(cfg, s, uuid);
    t := Step(cfg, s, Reconcile(uuid, |s.workloads|));
    assert HasLivePod(t);
    LeadsBy(cfg, Full(t, Idle), ListPods, true);
    LeadsThen(cfg, Full(s, Idle), a, Full(t, Idle), [ListPods], Full(t, HavePods(s.pods)), true);
    moves := a + [ListPods];
  }

  /** Kubernetes completes the rollout, and the pass goes on with the pods it had listed before. */
  lemma CompleteAndPatch(cfg: Config, s: State, pods: seq<Pod>, uuid: string) returns (moves: seq<Move>, t: State)
    requires NeedsState(cfg, pods)
    ensures Leads(cfg, Full(s, HavePods(pods)), moves, Full(t, Idle), true) && Raised(s, t, 1)
  {
    var events := RolloutCanComplete(cfg, s);
    var u := Run(cfg, s, events);
    var b := KubeMoves(cfg, Full(s, HavePods(pods)), events, true);
    var c := RestOfPass(cfg, u, pods, uuid, true);
    t := u.(workloads := Reconciled(cfg, pods, u.workloads, uuid, |u.workloads|));
    LeadsThen(cfg, Full(s, HavePods(pods)), b, Full(u, HavePods(pods)), c, Full(t, Idle), true);
    moves := b + c;
  }

  /** Two patches do happen, without any failure: from every state with no rollout in progress and a
      live pod not as wanted, list and patch; list the pods again at once; let Kubernetes complete
      the rollout; the rest of the pass then goes by the old list and patches every template again. */
  lemma PatchedTwice(cfg: Config, s: State, first: string, second: string) returns (moves: seq<Move>)
    requires !InProgress(s.workloads)
    requires exists p :: 0 <= p < |s.pods| && !s.pods[p].terminating && !Good(cfg, s.pods[p])
    ensures Failed(moves) == 0 && LiveWhenListing(cfg, Full(s, Idle), moves)
    ensures Raised(s, DoAll(cfg, Full(s, Idle), moves).s, 2)
  {
    NeedsStateIff(cfg, s.pods);
    var a, t := PatchAndList(cfg, s, first);
    var b, u := CompleteAndPatch(cfg, t, s.pods, second);
    LeadsThen(cfg, Full(s, Idle), a, Full(t, HavePods(s.pods)), b, Full(u, Idle), true);
    moves := a + b;
  }

  /** No run of single calls without failing Patch calls patches the template more than `bound` times;
      with `live`, no such run in which every pod listing under an effective route shows a live pod. */
  ghost predicate StepsPatchAtMost(cfg: Config, s: State, w: nat, bound: nat, live: bool)
    requires w < |s.workloads|
  {
    forall moves :: (live ==> LiveWhenListing(cfg, Full(s, Idle), moves)) && Failed(moves) == 0 ==>
      var t := DoAll(cfg, Full(s, Idle), moves).s;
      w < |t.workloads| && t.workloads[w].rev <= s.workloads[w].rev + bound
  }

  lemma StepsBounded(cfg: Config, s: State, w: nat)
    requires Sane(s) && w < |s.workloads| && Consistent(cfg)
    ensures StepsPatchAtMost(cfg, s, w, 2, true)
  {
    forall moves | LiveWhenListing(cfg, Full(s, Idle), moves) && Failed(moves) == 0
      ensures var t := DoAll(cfg, Full(s, Idle), moves).s;
              w < |t.workloads| && t.workloads[w].rev <= s.workloads[w].rev + 2
    {
      PatchesBoundedInSteps(cfg, Full(s, Idle), moves, w);
    }
  }

  lemma StepsUnbounded(cfg: Config, s: State, w: nat, bound: nat, live: bool)
    requires Sane(s) && w < |s.workloads| && (if live then !Consistent(cfg) else cfg.effective)
    ensures !StepsPatchAtMost(cfg, s, w, bound, live)
  {
    var events := RollsForever(cfg, s, bound + 1, Digits, live);
    var moves := Expanded(cfg, s, events, live);
    assert Run(cfg, s, events).workloads[w].rev == s.workloads[w].rev + bound + 1;
    assert DoAll(cfg, Full(s, Idle), moves).s == Run(cfg, s, events);
  }

  lemma {:induction false} LiveIfIdleInSteps(cfg: Config, f: Full, moves: seq<Move>)
    requires !cfg.effective
    ensures LiveWhenListing(cfg, f, moves)
    decreases |moves|
  {
    if moves != [] {
      LiveIfIdleInSteps(cfg, Do(cfg, f, moves[0]), moves[1..]);
    }
  }

  lemma IdleNeedsNoPodInSteps(cfg: Config, s: State, w: nat, bound: nat)
    requires w < |s.workloads| && !cfg.effective
    ensures StepsPatchAtMost(cfg, s, w, bound, false) <==> StepsPatchAtMost(cfg, s, w, bound, true)
  {
    forall moves ensures LiveWhenListing(cfg, Full(s, Idle), moves) { LiveIfIdleInSteps(cfg, Full(s, Idle), moves); }
  }

  /** Call by call, from every sane state, the patches of a template are bounded, and then by two,
      exactly when webhook and reconciler agree; without a live pod at every listing, exactly when
      besides no route is effective. */
  lemma SettlesIffInSteps(cfg: Config, s: State, w: nat)
    requires Sane(s) && w < |s.workloads|
    ensures (exists bound :: StepsPatchAtMost(cfg, s, w, bound, true)) <==> Consistent(cfg)
    ensures Consistent(cfg) ==> StepsPatchAtMost(cfg, s, w, 2, true)
    ensures (exists bound :: StepsPatchAtMost(cfg, s, w, bound, false)) <==> Consistent(cfg) && !cfg.effective
  {
    if Consistent(cfg) {
      StepsBounded(cfg, s, w);
    } else {
      forall bound: nat ensures !StepsPatchAtMost(cfg, s, w, bound, true) { StepsUnbounded(cfg, s, w, bound, true); }
    }
    if cfg.effective {
      forall bound: nat ensures !StepsPatchAtMost(cfg, s, w, bound, false) { StepsUnbounded(cfg, s, w, bound, false); }
    } else {
      forall bound: nat
        ensures StepsPatchAtMost(cfg, s, w, bound, false) <==> StepsPatchAtMost(cfg, s, w, bound, true)
      {
        IdleNeedsNoPodInSteps(cfg, s, w, bound);
      }
    }
  }

  /** Two is the least bound wherever there is something to roll out: no rollout in progress and a live
      pod not as wanted. */
  lemma TwoIsLeast(cfg: Config, s: State, w: nat)
    requires w < |s.workloads| && !InProgress(s.workloads)
    requires exists p :: 0 <= p < |s.pods| && !s.pods[p].terminating && !Good(cfg, s.pods[p])
    ensures !StepsPatchAtMost(cfg, s, w, 1, true)
  {
    var moves := PatchedTwice(cfg, s, "1", "2");
    assert DoAll(cfg, Full(s, Idle), moves).s.workloads[w].rev == s.workloads[w].rev + 2;
  }
}
