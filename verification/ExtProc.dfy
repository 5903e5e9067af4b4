/** The injected ext_proc container: built by internal/controller/extproc_builder.go, added to pods
    by gateway_mutator.go, recognised again by `checkPodHasSideCar` of gateway.go, and summarised
    by the drift hash on the workload template. */
module ExtProc {
  import opened Text
  import Names

  const EXTPROC := "ai-gateway-extproc"
  const ENVOY := "envoy"
  const TEXT_FORMAT := "text"
  const LOG_LEVEL := "-logLevel"
  const MCP_ADDR := "-mcpAddr"

  /* ---- Environment variables ---- */

  /** `value` stands for everything an EnvVar holds besides its name. */
  datatype EnvVar = EnvVar(name: string, value: string)

  /** Kubernetes reads an environment list so that the last entry of a name wins. */
  function Meaning(env: seq<EnvVar>): map<string, string> {
    if env == [] then map[] else Meaning(env[..|env| - 1])[env[|env| - 1].name := env[|env| - 1].value]
  }

  /** The last position of a name, or the length when it is absent. */
  function LastPos(env: seq<EnvVar>, name: string): (i: nat)
    ensures i <= |env|
    ensures i < |env| ==> env[i].name == name
    ensures forall j :: 0 <= j < |env| && env[j].name == name ==> j <= i < |env|
  {
    if env == [] then 0
    else if env[|env| - 1].name == name then |env| - 1
    else
      var i := LastPos(env[..|env| - 1], name);
      if i < |env| - 1 then i else |env|
  }

  function Put(env: seq<EnvVar>, e: EnvVar): seq<EnvVar> {
    var i := LastPos(env, e.name);
    if i < |env| then env[i := e] else env + [e]
  }

  function MergeEnv(global: seq<EnvVar>, over: seq<EnvVar>): seq<EnvVar> {
    if over == [] then global else Put(MergeEnv(global, over[..|over| - 1]), over[|over| - 1])
  }

  /** The position map of the source: every name at its last position. */
  ghost predicate Indexed(env: seq<EnvVar>, index: map<string, nat>) {
    && (forall name :: name in index ==> index[name] == LastPos(env, name) < |env|)
    && (forall j :: 0 <= j < |env| ==> env[j].name in index)
  }

  lemma IndexedAppend(env: seq<EnvVar>, index: map<string, nat>, e: EnvVar)
    requires Indexed(env, index)
    ensures Indexed(env + [e], index[e.name := |env|])
  {
    assert (env + [e])[..|env|] == env;
  }

  lemma IndexedReplace(env: seq<EnvVar>, index: map<string, nat>, e: EnvVar)
    requires Indexed(env, index) && e.name in index
    ensures Indexed(env[index[e.name] := e], index)
  {
    var r := env[index[e.name] := e];
    forall name | name in index ensures LastPos(r, name) == index[name] {
      assert r[index[name]].name == name;
    }
  }

  /** The two loops of the source, with their name-to-position map. */
  method MergeEnvVars(global: seq<EnvVar>, over: seq<EnvVar>) returns (result: seq<EnvVar>)
    ensures result == MergeEnv(global, over)
  {
    result := [];
    var index: map<string, nat> := map[];
    for n := 0 to |global|
      invariant result == global[..n] && Indexed(result, index)
    {
      IndexedAppend(result, index, global[n]);
      result, index := result + [global[n]], index[global[n].name := |result|];
    }
    for n := 0 to |over|
      invariant result == MergeEnv(global, over[..n]) && Indexed(result, index)
    {
      var e := over[n];
      assert over[..n + 1][..n] == over[..n];
      if e.name in index {
        IndexedReplace(result, index, e);
        result := result[index[e.name] := e];
      } else {
        IndexedAppend(result, index, e);
        result, index := result + [e], index[e.name := |result|];
      }
    }
    assert over[..|over|] == over;
  }

  lemma {:induction false} MeaningAt(env: seq<EnvVar>, name: string)
    ensures name in Meaning(env) <==> LastPos(env, name) < |env|
    ensures name in Meaning(env) ==> Meaning(env)[name] == env[LastPos(env, name)].value
  {
    if env != [] {
      MeaningAt(env[..|env| - 1], name);
    }
  }

  lemma LastPosIs(env: seq<EnvVar>, name: string, i: nat)
    requires i < |env| && env[i].name == name
    requires forall j :: i < j < |env| ==> env[j].name != name
    ensures LastPos(env, name) == i
  {
  }

  lemma PutAt(env: seq<EnvVar>, e: EnvVar, name: string)
    ensures name == e.name ==>
              LastPos(Put(env, e), name) < |Put(env, e)| && Put(env, e)[LastPos(Put(env, e), name)] == e
    ensures name != e.name ==> (LastPos(env, name) < |env| <==> LastPos(Put(env, e), name) < |Put(env, e)|)
    ensures name != e.name && LastPos(env, name) < |env| ==>
              Put(env, e)[LastPos(Put(env, e), name)] == env[LastPos(env, name)]
  {
    var p := Put(env, e);
    var i := LastPos(env, e.name);
    if name == e.name {
      LastPosIs(p, name, if i < |env| then i else |env|);
    } else {
      var j := LastPos(env, name);
      if j < |env| {
        LastPosIs(p, name, j);
      }
    }
  }

  lemma PutMeaning(env: seq<EnvVar>, e: EnvVar)
    ensures Meaning(Put(env, e)) == Meaning(env)[e.name := e.value]
  {
    forall name
      ensures name in Meaning(Put(env, e)) <==> name in Meaning(env)[e.name := e.value]
      ensures name in Meaning(Put(env, e)) ==> Meaning(Put(env, e))[name] == Meaning(env)[e.name := e.value][name]
    {
      MeaningAt(env, name);
      MeaningAt(Put(env, e), name);
      PutAt(env, e, name);
    }
  }

  /** Duplicates in either list included: the merged list means the global one overridden by the
      GatewayConfig's. */
  lemma {:induction false} MergeEnvMeaning(global: seq<EnvVar>, over: seq<EnvVar>)
    ensures Meaning(MergeEnv(global, over)) == Meaning(global) + Meaning(over)
    decreases |over|
  {
    if over != [] {
      MergeEnvMeaning(global, over[..|over| - 1]);
      PutMeaning(MergeEnv(global, over[..|over| - 1]), over[|over| - 1]);
    }
  }

  /** ... and the global names keep their places in front. */
  lemma {:induction false} MergeEnvNames(global: seq<EnvVar>, over: seq<EnvVar>)
    ensures |global| <= |MergeEnv(global, over)|
    ensures forall i :: 0 <= i < |global| ==> MergeEnv(global, over)[i].name == global[i].name
    decreases |over|
  {
    if over != [] {
      MergeEnvNames(global, over[..|over| - 1]);
      PutNames(MergeEnv(global, over[..|over| - 1]), over[|over| - 1]);
    }
  }

  lemma PutNames(env: seq<EnvVar>, e: EnvVar)
    ensures |env| <= |Put(env, e)| && forall i :: 0 <= i < |env| ==> Put(env, e)[i].name == env[i].name
  {
  }

  /* ---- Images ---- */

  function ImageTagOrDigest(image: string): string {
    if '@' in image then image[IndexOf(image, '@')..]
    else if ':' in image && ('/' in image ==> LastIndexOf(image, '/') < LastIndexOf(image, ':'))
    then image[LastIndexOf(image, ':')..]
    else ""
  }

  function MergeImageWithRepository(base: string, repository: string): string {
    if repository == "" then base else repository + ImageTagOrDigest(base)
  }

  lemma LastBefore(s: string, c: char, k: nat)
    requires k <= |s| && c in s && c !in s[k..]
    ensures LastIndexOf(s, c) < k
  {
    assert forall j :: k <= j < |s| ==> s[j] == s[k..][j - k];
  }

  lemma TagOf(repo: string, tag: string)
    requires '@' !in repo && '@' !in tag && '/' !in tag && ':' !in tag
    ensures ImageTagOrDigest(repo + ":" + tag) == ":" + tag
  {
    var image := repo + ":" + tag;
    assert image[|repo|] == ':' && image[|repo| + 1..] == tag && image[|repo|..] == ":" + tag;
    LastIndexOfIs(image, ':', |repo|);
    if '/' in image {
      LastBefore(image, '/', |repo|);
    }
  }

  /** A repository override keeps the tag of the base image; a colon of a registry port is no tag. */
  lemma RepositoryKeepsTag(repo: string, tag: string, repository: string)
    requires '@' !in repo && '@' !in tag && '/' !in tag && ':' !in tag && repository != ""
    ensures MergeImageWithRepository(repo + ":" + tag, repository) == repository + ":" + tag
  {
    TagOf(repo, tag);
    assert repository + (":" + tag) == repository + ":" + tag;
  }

  /** ... and its digest, tag or no tag before it. */
  lemma RepositoryKeepsDigest(repo: string, digest: string, repository: string)
    requires '@' !in repo && repository != ""
    ensures MergeImageWithRepository(repo + "@" + digest, repository) == repository + "@" + digest
  {
    var image := repo + "@" + digest;
    assert image[|repo|] == '@' && image[..|repo|] == repo;
    IndexOfIs(image, '@', |repo|);
    assert image[|repo|..] == "@" + digest;
  }

  /* ---- The builder ---- */

  datatype Mount = Mount(name: string, path: string, readOnly: bool)
  /** Resources and security context are opaque to the controller. */
  datatype KubernetesSpec = KubernetesSpec(image: Option<string>, imageRepository: Option<string>, env: seq<EnvVar>,
                                           resources: Option<string>, securityContext: Option<string>,
                                           mounts: seq<Mount>)
  datatype ExtProcSpec = ExtProcSpec(kubernetes: Option<KubernetesSpec>)
  datatype GatewayConfig = GatewayConfig(extProc: Option<ExtProcSpec>, globalCosts: seq<string>)
  datatype Input = Input(gatewayConfig: Option<GatewayConfig>, needMCP: bool) {
    function Spec(): Option<ExtProcSpec> { if gatewayConfig.None? then None else gatewayConfig.value.extProc }

    function Kubernetes(): Option<KubernetesSpec> { if Spec().None? then None else Spec().value.kubernetes }
  }

  datatype Container = Container(name: string, image: string, pullPolicy: string, args: seq<string>, env: seq<EnvVar>,
                                 mounts: seq<Mount>, securityContext: Option<string>, resources: Option<string>,
                                 restartAlways: bool)

  datatype Builder = Builder(
    image: string, pullPolicy: string, logLevel: string, logFormat: string, enableRedaction: bool, udsPath: string,
    requestHeaders: Option<string>, spanHeaders: Option<string>, metricsHeaders: Option<string>,
    logHeaders: Option<string>,
    rootPrefix: string, endpointPrefixes: string, extraEnv: seq<EnvVar>, imagePullSecrets: seq<string>,
    maxRecvMsgSize: int, asSideCar: bool, mcpSeed: string, mcpIterations: int, mcpFallbackSeed: string,
    mcpFallbackIterations: int)
  {
    function Image(input: Input): string {
      var k := input.Kubernetes();
      if k.None? then image
      else if k.value.image.Some? then k.value.image.value
      else if k.value.imageRepository.Some? then MergeImageWithRepository(image, k.value.imageRepository.value)
      else image
    }

    function NonDefaultLogFormat(): string { if logFormat == TEXT_FORMAT then "" else logFormat }
  }

  datatype Arg = Arg(flag: string, value: string)

  function CoreArgs(b: Builder): seq<Arg> {
    [Arg(LOG_LEVEL, b.logLevel), Arg("-extProcAddr", "unix://" + b.udsPath), Arg("-adminPort", "1064"),
     Arg("-rootPrefix", b.rootPrefix), Arg("-maxRecvMsgSize", Itoa(b.maxRecvMsgSize))]
  }

  function FormatArgs(b: Builder): seq<Arg> {
    if b.NonDefaultLogFormat() != "" then [Arg("-logFormat", b.NonDefaultLogFormat())] else []
  }

  function McpArgs(b: Builder, needMCP: bool): seq<Arg> {
    if !needMCP then [] else
      [Arg(MCP_ADDR, ":9856"), Arg("-mcpSessionEncryptionSeed", b.mcpSeed),
       Arg("-mcpSessionEncryptionIterations", Itoa(b.mcpIterations))]
      + (if b.mcpFallbackSeed == "" then [] else
           [Arg("-mcpFallbackSessionEncryptionSeed", b.mcpFallbackSeed),
            Arg("-mcpFallbackSessionEncryptionIterations", Itoa(b.mcpFallbackIterations))])
  }

  function Optional(flag: string, value: Option<string>): seq<Arg> {
    if value.Some? then [Arg(flag, value.value)] else []
  }

  function HeaderArgs(b: Builder): seq<Arg> {
    Optional("-requestHeaderAttributes", b.requestHeaders) + Optional("-spanRequestHeaderAttributes", b.spanHeaders)
    + Optional("-metricsRequestHeaderAttributes", b.metricsHeaders)
    + Optional("-logRequestHeaderAttributes", b.logHeaders)
  }

  function PrefixArgs(b: Builder): seq<Arg> {
    if b.endpointPrefixes != "" then [Arg("-endpointPrefixes", b.endpointPrefixes)] else []
  }

  /** The flag/value pairs of the base arguments; a trailing flag without a value may follow. */
  function BaseArgs(b: Builder, needMCP: bool): seq<Arg> {
    CoreArgs(b) + FormatArgs(b) + McpArgs(b, needMCP) + HeaderArgs(b) + PrefixArgs(b)
  }

  function TailArgs(b: Builder): seq<string> { if b.enableRedaction then ["-enableRedaction"] else [] }

  function Flat(args: seq<Arg>): (s: seq<string>)
    ensures |s| == 2 * |args|
    ensures forall i :: 0 <= i < |args| ==> s[2 * i] == args[i].flag && s[2 * i + 1] == args[i].value
  {
    if args == [] then [] else
      Flat(args[..|args| - 1]) + [args[|args| - 1].flag, args[|args| - 1].value]
  }

  function ConfigArg(hasBundle: bool): Arg {
    if hasBundle then Arg("-configBundlePath", "/etc/filter-config-bundle")
    else Arg("-configPath", "/etc/filter-config/filter-config.yaml")
  }

  /** The complete command line: the webhook puts its config flag in front of the builder's. */
  function CommandLine(b: Builder, needMCP: bool, hasBundle: bool): seq<string> {
    Flat([ConfigArg(hasBundle)] + BaseArgs(b, needMCP)) + TailArgs(b)
  }

  const DEFAULT_SECURITY := Some("restricted-65532")

  function DirOf(path: string): string {
    if '/' !in path then "." else if LastIndexOf(path, '/') == 0 then "/" else path[..LastIndexOf(path, '/')]
  }

  /** `buildExtProcContainer`; ports and probe are constant. */
  function Build(b: Builder, input: Input): Container {
    var k := input.Kubernetes();
    Container(EXTPROC, b.Image(input), b.pullPolicy,
              Flat(BaseArgs(b, input.needMCP)) + TailArgs(b),
              MergeEnv(b.extraEnv, if k.Some? then k.value.env else []),
              [Mount(Names.UDS_VOLUME, DirOf(b.udsPath), false)] + (if k.Some? then k.value.mounts else []),
              if k.Some? && k.value.securityContext.Some? then k.value.securityContext else DEFAULT_SECURITY,
              if k.Some? then k.value.resources else None,
              b.asSideCar)
  }

  /** The container's environment means the global variables overridden by the GatewayConfig's. */
  lemma BuiltEnvMeaning(b: Builder, input: Input)
    ensures Meaning(Build(b, input).env)
         == Meaning(b.extraEnv) + (if input.Kubernetes().Some? then Meaning(input.Kubernetes().value.env) else map[])
  {
    MergeEnvMeaning(b.extraEnv, if input.Kubernetes().Some? then input.Kubernetes().value.env else []);
  }

  /* ---- The drift hash ---- */

  /** The hashed fields, in the source's order. */
  datatype Digest = Digest(
    image: string, pullPolicy: string, logLevel: string, logFormat: string, enableRedaction: bool, udsPath: string,
    requestHeaders: Option<string>, spanHeaders: Option<string>, metricsHeaders: Option<string>,
    logHeaders: Option<string>,
    rootPrefix: string, endpointPrefixes: string, extraEnv: seq<EnvVar>, imagePullSecrets: seq<string>,
    maxRecvMsgSize: int, asSideCar: bool, mcpSeed: string, mcpIterations: int, mcpFallbackSeed: string,
    mcpFallbackIterations: int,
    needMCP: bool, extProc: Option<ExtProcSpec>)

  function DigestOf(b: Builder, input: Input): Digest {
    Digest(b.Image(input), b.pullPolicy, b.logLevel, b.NonDefaultLogFormat(), b.enableRedaction, b.udsPath,
           b.requestHeaders, b.spanHeaders, b.metricsHeaders, b.logHeaders,
           b.rootPrefix, b.endpointPrefixes, b.extraEnv, b.imagePullSecrets,
           b.maxRecvMsgSize, b.asSideCar, b.mcpSeed, b.mcpIterations, b.mcpFallbackSeed, b.mcpFallbackIterations,
           input.needMCP, input.Spec())
  }

  /* ---- The webhook ---- */

  datatype Volume = Volume(name: string, source: string)
  datatype PodSpec = PodSpec(initContainers: seq<Container>, containers: seq<Container>, volumes: seq<Volume>,
                             pullSecrets: seq<string>)
  datatype Lookup<T> = Present(value: T) | Absent | Failed
  /** The names derived from the Gateway whose pods are admitted. */
  datatype Gateway = Gateway(legacyVolume: string, legacySecret: string, bundleVolume: string, indexSecret: string)

  function GatewayFor(sha: string -> Names.ShortHash, name: string, ns: string): Gateway {
    Gateway(Names.LegacyVolumeName(sha, name, ns), Names.LegacySecretName(name, ns),
            Names.BundleVolumeName(sha, name, ns), Names.IndexSecretName(sha, name, ns))
  }

  function AddedVolumes(g: Gateway, hasLegacy: bool, hasBundle: bool): seq<Volume> {
    [Volume(Names.UDS_VOLUME, "emptyDir")]
    + (if hasLegacy then [Volume(g.legacyVolume, g.legacySecret)] else [])
    + (if hasBundle then [Volume(g.bundleVolume, g.indexSecret)] else [])
  }

  function AddedMounts(g: Gateway, hasLegacy: bool, hasBundle: bool): seq<Mount> {
    (if hasLegacy then [Mount(g.legacyVolume, "/etc/filter-config", true)] else [])
    + (if hasBundle then [Mount(g.bundleVolume, "/etc/filter-config-bundle", true)] else [])
  }

  function Injected(b: Builder, g: Gateway, input: Input, hasLegacy: bool, hasBundle: bool): Container {
    var c := Build(b, input);
    c.(args := CommandLine(b, input.needMCP, hasBundle), mounts := c.mounts + AddedMounts(g, hasLegacy, hasBundle))
  }

  function WithSocket(b: Builder, c: Container): Container {
    if c.name == ENVOY then c.(mounts := c.mounts + [Mount(Names.UDS_VOLUME, DirOf(b.udsPath), false)]) else c
  }

  function WithSockets(b: Builder, cs: seq<Container>): seq<Container> {
    seq(|cs|, i requires 0 <= i < |cs| => WithSocket(b, cs[i]))
  }

  /** A pod after injection. */
  function Mutated(b: Builder, g: Gateway, spec: PodSpec, input: Input, hasLegacy: bool, hasBundle: bool): PodSpec {
    Placed(b, spec, Injected(b, g, input, hasLegacy, hasBundle), AddedVolumes(g, hasLegacy, hasBundle))
  }

  /** A pod with the container and the volumes put in. */
  function Placed(b: Builder, spec: PodSpec, c: Container, volumes: seq<Volume>): PodSpec {
    PodSpec(if b.asSideCar then spec.initContainers + [c] else spec.initContainers,
            WithSockets(b, if b.asSideCar then spec.containers else spec.containers + [c]),
            spec.volumes + volumes, spec.pullSecrets + b.imagePullSecrets)
  }

  class Pod {
    var spec: PodSpec

    constructor (spec: PodSpec)
      ensures this.spec == spec
    {
      this.spec := spec;
    }

    /** Admission. `routes` and `mcpRoutes` are the results of the two listings (None: failed); the
        other lookups are the Secrets and the GatewayConfig. A pod is left untouched when a read
        fails, when no route is attached, or when neither config Secret exists yet. */
    method MutatePod(b: Builder, g: Gateway, routes: Option<nat>, mcpRoutes: Option<nat>,
                     bundle: Lookup<()>, legacy: Lookup<()>, config: Lookup<GatewayConfig>) returns (ok: bool)
      modifies this
      ensures ok <==> routes.Some? && mcpRoutes.Some?
                      && (routes.value + mcpRoutes.value > 0 ==>
                            (!bundle.Failed? && !legacy.Failed?
                             && (bundle.Present? || legacy.Present? ==> !config.Failed?)))
      ensures var inject := ok && routes.value + mcpRoutes.value > 0 && (bundle.Present? || legacy.Present?);
              spec == if !inject then old(spec) else
                        Mutated(b, g, old(spec),
                                Input(if config.Present? then Some(config.value) else None, mcpRoutes.value > 0),
                                legacy.Present?, bundle.Present?)
    {
      if routes.None? || mcpRoutes.None? {
        return false;
      }
      if routes.value == 0 && mcpRoutes.value == 0 {
        return true;
      }
      if bundle.Failed? || legacy.Failed? {
        return false;
      }
      if !bundle.Present? && !legacy.Present? {
        return true;
      }
      if config.Failed? {
        return false;
      }
      spec := spec.(volumes := spec.volumes + AddedVolumes(g, legacy.Present?, bundle.Present?));
      spec := spec.(pullSecrets := spec.pullSecrets + b.imagePullSecrets);
      var input := Input(if config.Present? then Some(config.value) else None, mcpRoutes.value > 0);
      var container := Injected(b, g, input, legacy.Present?, bundle.Present?);
      if b.asSideCar {
        spec := spec.(initContainers := spec.initContainers + [container]);
      } else {
        spec := spec.(containers := spec.containers + [container]);
      }
      MountSockets(b);
      ok := true;
    }

    /** Mounts the socket volume into every container called "envoy". */
    method MountSockets(b: Builder)
      modifies this
      ensures spec == old(spec).(containers := WithSockets(b, old(spec).containers))
    {
      ghost var want := WithSockets(b, spec.containers);
      for i := 0 to |spec.containers|
        invariant spec == old(spec).(containers := spec.containers)
                  && |spec.containers| == |want| == |old(spec).containers|
        invariant forall j :: 0 <= j < i ==> spec.containers[j] == want[j]
        invariant forall j :: i <= j < |want| ==> spec.containers[j] == old(spec).containers[j]
      {
        var c := spec.containers[i];
        if c.name == ENVOY {
          c := c.(mounts := c.mounts + [Mount(Names.UDS_VOLUME, DirOf(b.udsPath), false)]);
          spec := spec.(containers := spec.containers[i := c]);
        }
      }
    }
  }

  /** The volumes added to one pod never clash with each other. */
  lemma AddedVolumesDistinct(sha: string -> Names.ShortHash, name: string, ns: string, hasLegacy: bool, hasBundle: bool)
    ensures var vs := AddedVolumes(GatewayFor(sha, name, ns), hasLegacy, hasBundle);
            forall i, j :: 0 <= i < j < |vs| ==> vs[i].name != vs[j].name
  {
    Names.VolumesDistinct(sha, name, ns, name, ns);
    DistinctIf(GatewayFor(sha, name, ns), hasLegacy, hasBundle);
  }

  lemma DistinctIf(g: Gateway, hasLegacy: bool, hasBundle: bool)
    requires g.legacyVolume != Names.UDS_VOLUME && g.bundleVolume != Names.UDS_VOLUME
             && g.bundleVolume != g.legacyVolume
    ensures var vs := AddedVolumes(g, hasLegacy, hasBundle);
            forall i, j :: 0 <= i < j < |vs| ==> vs[i].name != vs[j].name
  {
  }

  /** Builders and inputs with equal digests build equal containers. */
  lemma DigestDecidesContainer(b: Builder, input: Input, b': Builder, input': Input)
    requires DigestOf(b, input) == DigestOf(b', input')
    ensures Build(b, input) == Build(b', input')
  {
    SameArgs(b, b', input.needMCP);
    assert input.Kubernetes() == input'.Kubernetes();
  }

  /** The digest decides the whole admission: builders and inputs with equal digests turn any pod
      into the same pod, the pull secrets included. */
  lemma DigestDecidesPod(b: Builder, input: Input, b': Builder, input': Input, g: Gateway, spec: PodSpec,
                         hasLegacy: bool, hasBundle: bool)
    requires DigestOf(b, input) == DigestOf(b', input')
    ensures Mutated(b, g, spec, input, hasLegacy, hasBundle) == Mutated(b', g, spec, input', hasLegacy, hasBundle)
  {
    DigestDecidesContainer(b, input, b', input');
    SameArgs(b, b', input.needMCP);
    var c := Injected(b, g, input, hasLegacy, hasBundle);
    assert c == Injected(b', g, input', hasLegacy, hasBundle);
    SameSockets(b, b', if b.asSideCar then spec.containers else spec.containers + [c]);
  }

  lemma SameSockets(b: Builder, b': Builder, cs: seq<Container>)
    requires b.udsPath == b'.udsPath
    ensures WithSockets(b, cs) == WithSockets(b', cs)
  {
  }

  lemma SameArgs(b: Builder, b': Builder, needMCP: bool)
    requires b'.(image := b.image, logFormat := b.logFormat) == b
    requires b.NonDefaultLogFormat() == b'.NonDefaultLogFormat()
    ensures BaseArgs(b, needMCP) == BaseArgs(b', needMCP) && TailArgs(b) == TailArgs(b')
  {
    assert CoreArgs(b) == CoreArgs(b');
    assert HeaderArgs(b) == HeaderArgs(b');
    assert McpArgs(b, needMCP) == McpArgs(b', needMCP);
  }

  /** Unless the two inputs collide, no change to the injected container can leave the hash on the
      workload template unchanged. */
  lemma HashSeesEveryChange(sha256: Digest -> string, b: Builder, input: Input, b': Builder, input': Input)
    requires sha256(DigestOf(b, input)) == sha256(DigestOf(b', input')) ==> DigestOf(b, input) == DigestOf(b', input')
    requires Build(b, input) != Build(b', input') || b.imagePullSecrets != b'.imagePullSecrets
    ensures sha256(DigestOf(b, input)) != sha256(DigestOf(b', input'))
  {
    if DigestOf(b, input) == DigestOf(b', input') {
      DigestDecidesContainer(b, input, b', input');
    }
  }

  /* ---- The pod, spelled out ---- */

  /** The directory of a path: what stands before its last slash. */
  lemma DirOfIs(dir: string, file: string)
    requires '/' !in file
    ensures dir != "" ==> DirOf(dir + "/" + file) == dir
    ensures DirOf("/" + file) == "/" && DirOf(file) == "."
  {
    var path := dir + "/" + file;
    assert path[|dir|] == '/' && path[|dir| + 1..] == file && path[..|dir|] == dir;
    LastIndexOfIs(path, '/', |dir|);
    var root := "/" + file;
    assert root[0] == '/' && root[1..] == file;
    LastIndexOfIs(root, '/', 0);
  }

  /** The image: the GatewayConfig's, or the global one, with its repository replaced if one is given. */
  lemma ImageSpelledOut(b: Builder, k: KubernetesSpec, costs: seq<string>, needMCP: bool)
    ensures b.Image(Input(None, needMCP)) == b.image
    ensures b.Image(Input(Some(GatewayConfig(None, costs)), needMCP)) == b.image
    ensures b.Image(Input(Some(GatewayConfig(Some(ExtProcSpec(None)), costs)), needMCP)) == b.image
    ensures var image := b.Image(Input(Some(GatewayConfig(Some(ExtProcSpec(Some(k))), costs)), needMCP));
            && (k.image.Some? ==> image == k.image.value)
            && (k.image.None? && k.imageRepository.Some? ==>
                  image == MergeImageWithRepository(b.image, k.imageRepository.value))
            && (k.image.None? && k.imageRepository.None? ==> image == b.image)
  {
  }

  /** The command line has this flag followed by this value, as a pair. */
  predicate HasOption(args: seq<string>, flag: string, value: string) {
    exists j :: 0 <= j < |args| && 2 * j + 1 < |args| && args[2 * j] == flag && args[2 * j + 1] == value
  }

  lemma OptionIff(args: seq<Arg>, tail: seq<string>, flag: string, value: string)
    requires |tail| <= 1
    ensures HasOption(Flat(args) + tail, flag, value) <==> Arg(flag, value) in args
  {
    var s := Flat(args) + tail;
    if j :| 0 <= j < |s| && 2 * j + 1 < |s| && s[2 * j] == flag && s[2 * j + 1] == value {
      assert j < |args| && s[2 * j] == Flat(args)[2 * j] && s[2 * j + 1] == Flat(args)[2 * j + 1];
      assert args[j] == Arg(flag, value);
    }
    if Arg(flag, value) in args {
      var j :| 0 <= j < |args| && args[j] == Arg(flag, value);
      assert s[2 * j] == flag && s[2 * j + 1] == value;
    }
  }

  predicate ConfigOption(hasBundle: bool, flag: string, value: string) {
    if hasBundle then flag == "-configBundlePath" && value == "/etc/filter-config-bundle"
    else flag == "-configPath" && value == "/etc/filter-config/filter-config.yaml"
  }

  predicate CoreOption(b: Builder, flag: string, value: string) {
    || (flag == "-logLevel" && value == b.logLevel)
    || (flag == "-extProcAddr" && value == "unix://" + b.udsPath)
    || (flag == "-adminPort" && value == "1064")
    || (flag == "-rootPrefix" && value == b.rootPrefix)
    || (flag == "-maxRecvMsgSize" && value == Itoa(b.maxRecvMsgSize))
    || (flag == "-logFormat" && value == b.logFormat && b.logFormat !in {"", "text"})
    || (flag == "-endpointPrefixes" && value == b.endpointPrefixes && b.endpointPrefixes != "")
  }

  predicate McpOption(b: Builder, flag: string, value: string) {
    || (flag == "-mcpAddr" && value == ":9856")
    || (flag == "-mcpSessionEncryptionSeed" && value == b.mcpSeed)
    || (flag == "-mcpSessionEncryptionIterations" && value == Itoa(b.mcpIterations))
    || (b.mcpFallbackSeed != ""
        && ((flag == "-mcpFallbackSessionEncryptionSeed" && value == b.mcpFallbackSeed)
            || (flag == "-mcpFallbackSessionEncryptionIterations" && value == Itoa(b.mcpFallbackIterations))))
  }

  predicate HeaderOption(b: Builder, flag: string, value: string) {
    || (flag == "-requestHeaderAttributes" && b.requestHeaders == Some(value))
    || (flag == "-spanRequestHeaderAttributes" && b.spanHeaders == Some(value))
    || (flag == "-metricsRequestHeaderAttributes" && b.metricsHeaders == Some(value))
    || (flag == "-logRequestHeaderAttributes" && b.logHeaders == Some(value))
  }

  lemma CoreOptionIff(b: Builder, a: Arg)
    ensures CoreOption(b, a.flag, a.value) <==> a in CoreArgs(b) || a in FormatArgs(b) || a in PrefixArgs(b)
  {
    var core := CoreArgs(b);
    assert a in core <==> a == core[0] || a == core[1] || a == core[2] || a == core[3] || a == core[4];
  }

  lemma McpOptionIff(b: Builder, needMCP: bool, a: Arg)
    ensures needMCP && McpOption(b, a.flag, a.value) <==> a in McpArgs(b, needMCP)
  {
  }

  lemma HeaderOptionIff(b: Builder, a: Arg)
    ensures HeaderOption(b, a.flag, a.value) <==> a in HeaderArgs(b)
  {
    var x := Optional("-requestHeaderAttributes", b.requestHeaders);
    var y := Optional("-spanRequestHeaderAttributes", b.spanHeaders);
    var z := Optional("-metricsRequestHeaderAttributes", b.metricsHeaders);
    var w := Optional("-logRequestHeaderAttributes", b.logHeaders);
    assert HeaderArgs(b) == x + y + z + w;
    assert a in HeaderArgs(b) <==> a in x || a in y || a in z || a in w;
  }

  lemma InBlocks(c: Arg, core: seq<Arg>, format: seq<Arg>, mcp: seq<Arg>, header: seq<Arg>, prefix: seq<Arg>, a: Arg)
    ensures a in [c] + (core + format + mcp + header + prefix) <==>
              a == c || a in core || a in format || a in mcp || a in header || a in prefix
  {
  }

  /** Which options the injected container gets, exactly, and with which values. */
  lemma OptionsSpelledOut(b: Builder, needMCP: bool, hasBundle: bool, flag: string, value: string)
    ensures HasOption(CommandLine(b, needMCP, hasBundle), flag, value) <==>
              ConfigOption(hasBundle, flag, value) || CoreOption(b, flag, value)
              || (needMCP && McpOption(b, flag, value)) || HeaderOption(b, flag, value)
  {
    var a := Arg(flag, value);
    OptionIff(AllArgs(b, needMCP, hasBundle), TailArgs(b), flag, value);
    InBlocks(ConfigArg(hasBundle), CoreArgs(b), FormatArgs(b), McpArgs(b, needMCP), HeaderArgs(b), PrefixArgs(b), a);
    CoreOptionIff(b, a);
    McpOptionIff(b, needMCP, a);
    HeaderOptionIff(b, a);
  }

  /** Redaction is the one flag without a value; it comes last. */
  lemma RedactionIsLast(b: Builder, needMCP: bool, hasBundle: bool)
    ensures var args := CommandLine(b, needMCP, hasBundle);
            && |args| > 1
            && (b.enableRedaction <==> |args| % 2 == 1)
            && (b.enableRedaction ==> args[|args| - 1] == "-enableRedaction")
  {
  }

  lemma FirstArgs(b: Builder, needMCP: bool, hasBundle: bool)
    ensures var args := CommandLine(b, needMCP, hasBundle);
            && |args| > 1
            && args[0] == (if hasBundle then "-configBundlePath" else "-configPath")
            && args[1] == (if hasBundle then "/etc/filter-config-bundle" else "/etc/filter-config/filter-config.yaml")
  {
    var args := AllArgs(b, needMCP, hasBundle);
    assert Flat(args)[2 * 0] == args[0].flag && Flat(args)[2 * 0 + 1] == args[0].value;
  }

  lemma ConfigMount(g: Gateway, hasLegacy: bool, hasBundle: bool, base: seq<Mount>)
    ensures var mounts := base + AddedMounts(g, hasLegacy, hasBundle);
            && (hasBundle ==> Mount(g.bundleVolume, "/etc/filter-config-bundle", true) in mounts)
            && (hasLegacy ==> Mount(g.legacyVolume, "/etc/filter-config", true) in mounts)
  {
    var mounts := AddedMounts(g, hasLegacy, hasBundle);
    assert hasBundle ==> mounts[|mounts| - 1] == Mount(g.bundleVolume, "/etc/filter-config-bundle", true);
    assert hasLegacy ==> mounts[0] == Mount(g.legacyVolume, "/etc/filter-config", true);
  }

  lemma InjectedIs(b: Builder, g: Gateway, input: Input, hasLegacy: bool, hasBundle: bool)
    ensures var c := Injected(b, g, input, hasLegacy, hasBundle);
            && c.args == CommandLine(b, input.needMCP, hasBundle)
            && c.mounts == Build(b, input).mounts + AddedMounts(g, hasLegacy, hasBundle)
  {
  }

  /** The config flag and the mount agree: the first two arguments name the bundle if it exists and the
      legacy file otherwise, at or below a path that the container mounts read-only. */
  lemma ConfigIsMounted(b: Builder, g: Gateway, input: Input, hasLegacy: bool, hasBundle: bool)
    requires hasLegacy || hasBundle
    ensures var c := Injected(b, g, input, hasLegacy, hasBundle); ConfigAgrees(g, hasBundle, c.args, c.mounts)
  {
    InjectedIs(b, g, input, hasLegacy, hasBundle);
    ConfigAgreesFor(g, hasLegacy, hasBundle, b, input.needMCP, Build(b, input).mounts);
  }

  predicate ConfigAgrees(g: Gateway, hasBundle: bool, args: seq<string>, mounts: seq<Mount>) {
    && |args| > 1
    && (if hasBundle
        then args[0] == "-configBundlePath" && args[1] == "/etc/filter-config-bundle"
             && Mount(g.bundleVolume, "/etc/filter-config-bundle", true) in mounts
        else args[0] == "-configPath" && args[1] == "/etc/filter-config/filter-config.yaml"
             && Mount(g.legacyVolume, "/etc/filter-config", true) in mounts)
  }

  lemma ConfigAgreesFor(g: Gateway, hasLegacy: bool, hasBundle: bool, b: Builder, needMCP: bool, base: seq<Mount>)
    requires hasLegacy || hasBundle
    ensures ConfigAgrees(g, hasBundle, CommandLine(b, needMCP, hasBundle), base + AddedMounts(g, hasLegacy, hasBundle))
  {
    FirstArgs(b, needMCP, hasBundle);
    ConfigMount(g, hasLegacy, hasBundle, base);
  }

  /** And so does the volume: it is added to the pod and holds the index Secret, or the legacy Secret. */
  lemma ConfigVolumes(b: Builder, g: Gateway, spec: PodSpec, input: Input, hasLegacy: bool, hasBundle: bool)
    ensures Mutated(b, g, spec, input, hasLegacy, hasBundle)
         == Placed(b, spec, Injected(b, g, input, hasLegacy, hasBundle),
                   [Volume("ai-gateway-extproc-uds", "emptyDir")]
                   + (if hasLegacy then [Volume(g.legacyVolume, g.legacySecret)] else [])
                   + (if hasBundle then [Volume(g.bundleVolume, g.indexSecret)] else []))
  {
  }

  /** The rest of the injected container. */
  lemma ContainerSpelledOut(b: Builder, g: Gateway, input: Input, hasLegacy: bool, hasBundle: bool)
    ensures var c, k := Injected(b, g, input, hasLegacy, hasBundle), input.Kubernetes();
            && c.name == "ai-gateway-extproc" && c.pullPolicy == b.pullPolicy && c.restartAlways == b.asSideCar
            && c.image == b.Image(input) && c.args == CommandLine(b, input.needMCP, hasBundle)
            && Mount("ai-gateway-extproc-uds", DirOf(b.udsPath), false) in c.mounts
            && (k.Some? ==> (forall i :: 0 <= i < |k.value.mounts| ==> k.value.mounts[i] in c.mounts))
            && c.resources == (if k.Some? then k.value.resources else None)
            && (k.Some? && k.value.securityContext.Some? ==> c.securityContext == k.value.securityContext)
            && (k.None? || k.value.securityContext.None? ==> c.securityContext == DEFAULT_SECURITY)
    ensures input.Kubernetes().Some? <==>
              input.gatewayConfig.Some? && input.gatewayConfig.value.extProc.Some?
              && input.gatewayConfig.value.extProc.value.kubernetes.Some?
    ensures input.Kubernetes().Some? ==>
              input.Kubernetes() == input.gatewayConfig.value.extProc.value.kubernetes
  {
    var c := Injected(b, g, input, hasLegacy, hasBundle);
    assert c.mounts[0] == Mount("ai-gateway-extproc-uds", DirOf(b.udsPath), false);
  }

  /** Where the container goes, and what else injection does: the sidecar is last among the init
      containers or the containers, every container called "envoy" gets the socket mount and no other
      one changes, and volumes and pull secrets are only added to. */
  lemma PlacedSpelledOut(b: Builder, spec: PodSpec, c: Container, volumes: seq<Volume>)
    requires c.name != "envoy"
    ensures var pod := Placed(b, spec, c, volumes);
            && pod.initContainers == spec.initContainers + (if b.asSideCar then [c] else [])
            && |pod.containers| == |spec.containers| + (if b.asSideCar then 0 else 1)
            && (!b.asSideCar ==> pod.containers[|spec.containers|] == c)
            && (forall i :: 0 <= i < |spec.containers| ==> SocketAdded(b, spec.containers[i], pod.containers[i]))
            && pod.volumes == spec.volumes + volumes && pod.pullSecrets == spec.pullSecrets + b.imagePullSecrets
  {
  }

  predicate SocketAdded(b: Builder, before: Container, after: Container) {
    after == if before.name != "envoy" then before
             else before.(mounts := before.mounts + [Mount("ai-gateway-extproc-uds", DirOf(b.udsPath), false)])
  }

  /* ---- The checker ---- */

  /** The first container with the extproc name and the wanted image, or the length. */
  function FirstMatch(cs: seq<Container>, image: string): (i: nat)
    ensures i <= |cs|
    ensures i < |cs| ==> cs[i].name == EXTPROC && cs[i].image == image
    ensures forall j :: 0 <= j < i ==> !(cs[j].name == EXTPROC && cs[j].image == image)
  {
    if cs == [] || (cs[0].name == EXTPROC && cs[0].image == image) then 0 else
      var i := 1 + FirstMatch(cs[1..], image);
      assert forall j :: 1 <= j < i ==> cs[j] == cs[1..][j - 1];
      i
  }

  /** No argument after a "-logLevel" differs from the wanted level. */
  predicate LevelOk(args: seq<string>, level: string) {
    forall j :: 0 <= j < |args| - 1 && args[j] == LOG_LEVEL ==> args[j + 1] == level
  }

  /** Some argument follows a "-mcpAddr". */
  predicate HasMcp(args: seq<string>) { exists j :: 0 <= j < |args| - 1 && args[j] == MCP_ADDR }

  predicate ContainersOk(cs: seq<Container>, image: string, level: string, needMCP: bool) {
    var i := FirstMatch(cs, image);
    i < |cs| && LevelOk(cs[i].args, level) && (needMCP ==> HasMcp(cs[i].args))
  }

  /** The pod's sidecar is current, as the reconciler sees it. */
  predicate HasSideCar(spec: PodSpec, asSideCar: bool, image: string, level: string, needMCP: bool) {
    ContainersOk(if asSideCar then spec.initContainers else spec.containers, image, level, needMCP)
  }

  method CheckContainers(cs: seq<Container>, image: string, level: string, needMCP: bool) returns (has: bool)
    ensures has <==> ContainersOk(cs, image, level, needMCP)
  {
    has := false;
    for i := 0 to |cs|
      invariant !has && i <= FirstMatch(cs, image)
    {
      if cs[i].name == EXTPROC && cs[i].image == image {
        assert FirstMatch(cs, image) == i;
        has := CheckArgs(cs[i].args, level, needMCP);
        return;
      }
    }
  }

  method CheckArgs(args: seq<string>, level: string, needMCP: bool) returns (has: bool)
    ensures has <==> LevelOk(args, level) && (needMCP ==> HasMcp(args))
  {
    has := true;
    var hasMCPAddr := false;
    for j := 0 to |args|
      invariant has && forall i :: 0 <= i < j - 1 && args[i] == LOG_LEVEL ==> args[i + 1] == level
      invariant hasMCPAddr <==> exists i :: 0 <= i < j - 1 && args[i] == MCP_ADDR
    {
      if j > 0 && args[j - 1] == LOG_LEVEL && args[j] != level {
        has := false;
        break;
      }
      if j > 0 && args[j - 1] == MCP_ADDR {
        hasMCPAddr := true;
      }
    }
    if needMCP && !hasMCPAddr {
      has := false;
    }
  }

  method CheckPodHasSideCar(spec: PodSpec, asSideCar: bool, image: string, level: string, needMCP: bool)
    returns (has: bool)
    ensures has <==> HasSideCar(spec, asSideCar, image, level, needMCP)
  {
    if asSideCar {
      has := CheckContainers(spec.initContainers, image, level, needMCP);
    } else {
      has := CheckContainers(spec.containers, image, level, needMCP);
    }
  }

  /* ---- Builder and checker agree ---- */

  /** The argument after the i-th value: the next flag, or the trailing one. */
  function NextOf(args: seq<Arg>, tail: seq<string>, i: nat): Option<string>
    requires i < |args|
  {
    if i + 1 < |args| then Some(args[i + 1].flag) else if tail != [] then Some(tail[0]) else None
  }

  /** In terms of pairs: the level check also looks at what follows a VALUE that reads "-logLevel". */
  predicate PairsLevelOk(args: seq<Arg>, tail: seq<string>, level: string) {
    forall i :: 0 <= i < |args| ==>
      && (args[i].flag == LOG_LEVEL ==> args[i].value == level)
      && (args[i].value == LOG_LEVEL && NextOf(args, tail, i).Some? ==> NextOf(args, tail, i).value == level)
  }

  /** ... and the MCP check is also met by a value that reads "-mcpAddr". */
  predicate PairsHaveMcp(args: seq<Arg>, tail: seq<string>) {
    exists i :: 0 <= i < |args| &&
                (args[i].flag == MCP_ADDR || (args[i].value == MCP_ADDR && NextOf(args, tail, i).Some?))
  }

  lemma FlatNext(args: seq<Arg>, tail: seq<string>, i: nat)
    requires i < |args| && |tail| <= 1
    ensures var s := Flat(args) + tail;
            && s[2 * i] == args[i].flag && s[2 * i + 1] == args[i].value
            && (2 * i + 2 < |s| <==> NextOf(args, tail, i).Some?)
            && (2 * i + 2 < |s| ==> s[2 * i + 2] == NextOf(args, tail, i).value)
  {
    if i + 1 < |args| {
      assert (Flat(args) + tail)[2 * (i + 1)] == args[i + 1].flag;
    }
  }

  lemma LevelInPairs(args: seq<Arg>, tail: seq<string>, level: string)
    requires |tail| <= 1
    ensures LevelOk(Flat(args) + tail, level) <==> PairsLevelOk(args, tail, level)
  {
    var s := Flat(args) + tail;
    if LevelOk(s, level) {
      forall i | 0 <= i < |args|
        ensures args[i].flag == LOG_LEVEL ==> args[i].value == level
        ensures args[i].value == LOG_LEVEL && NextOf(args, tail, i).Some? ==> NextOf(args, tail, i).value == level
      {
        FlatNext(args, tail, i);
      }
    }
    if PairsLevelOk(args, tail, level) {
      forall j | 0 <= j < |s| - 1 && s[j] == LOG_LEVEL ensures s[j + 1] == level {
        var i := j / 2;
        assert j == 2 * i || j == 2 * i + 1;
        FlatNext(args, tail, i);
      }
    }
  }

  lemma McpInPairs(args: seq<Arg>, tail: seq<string>)
    requires |tail| <= 1
    ensures HasMcp(Flat(args) + tail) <==> PairsHaveMcp(args, tail)
  {
    var s := Flat(args) + tail;
    if HasMcp(s) {
      var j :| 0 <= j < |s| - 1 && s[j] == MCP_ADDR;
      var i := j / 2;
      assert j == 2 * i || j == 2 * i + 1;
      FlatNext(args, tail, i);
      assert args[i].flag == MCP_ADDR || (args[i].value == MCP_ADDR && NextOf(args, tail, i).Some?);
    }
    if i :| 0 <= i < |args| &&
            (args[i].flag == MCP_ADDR || (args[i].value == MCP_ADDR && NextOf(args, tail, i).Some?)) {
      FlatNext(args, tail, i);
      assert s[2 * i] == MCP_ADDR || s[2 * i + 1] == MCP_ADDR;
    }
  }

  /** No container of the pod template itself is called like the injected one. */
  predicate CleanTemplate(spec: PodSpec) {
    && (forall i :: 0 <= i < |spec.initContainers| ==> spec.initContainers[i].name != EXTPROC)
    && (forall i :: 0 <= i < |spec.containers| ==> spec.containers[i].name != EXTPROC)
  }

  predicate NoneNamed(cs: seq<Container>) { forall i :: 0 <= i < |cs| ==> cs[i].name != EXTPROC }

  lemma AppendedMatch(cs: seq<Container>, c: Container, image: string)
    requires NoneNamed(cs) && c.name == EXTPROC
    ensures FirstMatch(cs, image) == |cs|
    ensures FirstMatch(cs + [c], image) == if c.image == image then |cs| else |cs| + 1
  {
    var all := cs + [c];
    assert all[|cs|] == c;
    assert forall i :: 0 <= i < |cs| ==> all[i].name != EXTPROC;
  }

  /** An admitted pod is recognised exactly when it was admitted with the wanted placement and
      image and its command line passes. */
  lemma RecognisedIff(b: Builder, g: Gateway, spec: PodSpec, input: Input, hasLegacy: bool, hasBundle: bool,
                      asSideCar: bool, image: string, level: string, needMCP: bool)
    requires CleanTemplate(spec)
    ensures HasSideCar(Mutated(b, g, spec, input, hasLegacy, hasBundle), asSideCar, image, level, needMCP) <==>
              && b.asSideCar == asSideCar && b.Image(input) == image
              && LevelOk(CommandLine(b, input.needMCP, hasBundle), level)
              && (needMCP ==> HasMcp(CommandLine(b, input.needMCP, hasBundle)))
  {
    var c := Injected(b, g, input, hasLegacy, hasBundle);
    var sockets := WithSockets(b, spec.containers);
    assert c.name == EXTPROC && c.image == b.Image(input);
    assert NoneNamed(sockets);
    assert WithSockets(b, spec.containers + [c]) == sockets + [c];
    AppendedMatch(spec.initContainers, c, image);
    AppendedMatch(sockets, c, image);
    var pod := Mutated(b, g, spec, input, hasLegacy, hasBundle);
    assert b.asSideCar ==> pod.initContainers == spec.initContainers + [c] && pod.containers == sockets;
    assert !b.asSideCar ==> pod.initContainers == spec.initContainers && pod.containers == sockets + [c];
  }

  function AllArgs(b: Builder, needMCP: bool, hasBundle: bool): seq<Arg> {
    [ConfigArg(hasBundle)] + BaseArgs(b, needMCP)
  }

  predicate NoFlag(args: seq<Arg>, flag: string) { forall i :: 0 <= i < |args| ==> args[i].flag != flag }

  lemma CoreFlags(b: Builder)
    ensures |CoreArgs(b)| == 5 && CoreArgs(b)[0] == Arg(LOG_LEVEL, b.logLevel)
    ensures NoFlag(CoreArgs(b)[1..], LOG_LEVEL) && NoFlag(CoreArgs(b), MCP_ADDR)
  {
  }

  lemma McpFlags(b: Builder, needMCP: bool)
    ensures NoFlag(McpArgs(b, needMCP), LOG_LEVEL)
    ensures NoFlag(McpArgs(b, needMCP), MCP_ADDR) <==> !needMCP
  {
    if needMCP {
      assert McpArgs(b, true)[0].flag == MCP_ADDR;
    }
  }

  lemma HeaderFlags(b: Builder)
    ensures NoFlag(HeaderArgs(b), LOG_LEVEL) && NoFlag(HeaderArgs(b), MCP_ADDR)
  {
  }

  lemma OtherFlags(b: Builder, hasBundle: bool)
    ensures NoFlag(FormatArgs(b) + PrefixArgs(b) + [ConfigArg(hasBundle)], LOG_LEVEL)
    ensures NoFlag(FormatArgs(b) + PrefixArgs(b) + [ConfigArg(hasBundle)], MCP_ADDR)
  {
  }

  lemma NoFlagConcat(a: seq<Arg>, b: seq<Arg>, flag: string)
    ensures NoFlag(a + b, flag) <==> NoFlag(a, flag) && NoFlag(b, flag)
  {
    if NoFlag(a + b, flag) {
      assert forall i :: 0 <= i < |a| ==> a[i] == (a + b)[i];
      assert forall i :: 0 <= i < |b| ==> b[i] == (a + b)[i + |a|];
    }
  }

  /** The flag "-logLevel" is passed once, with the configured level; "-mcpAddr" is passed exactly
      when MCP is needed. */
  lemma FlagsOf(b: Builder, needMCP: bool, hasBundle: bool)
    ensures var args := AllArgs(b, needMCP, hasBundle);
            && |args| > 1 && args[1] == Arg(LOG_LEVEL, b.logLevel)
            && (forall i :: 0 <= i < |args| && i != 1 ==> args[i].flag != LOG_LEVEL)
            && (NoFlag(args, MCP_ADDR) <==> !needMCP)
  {
    CoreFlags(b);
    McpFlags(b, needMCP);
    HeaderFlags(b);
    OtherFlags(b, hasBundle);
    var core, format, mcp := CoreArgs(b), FormatArgs(b), McpArgs(b, needMCP);
    var header, prefix := HeaderArgs(b), PrefixArgs(b);
    FlagsOfBlocks(ConfigArg(hasBundle), core, format, mcp, header, prefix);
  }

  lemma FlagsOfBlocks(config: Arg, core: seq<Arg>, format: seq<Arg>, mcp: seq<Arg>, header: seq<Arg>, prefix: seq<Arg>)
    requires |core| > 0 && NoFlag(core[1..], LOG_LEVEL) && NoFlag(core, MCP_ADDR) && NoFlag(mcp, LOG_LEVEL)
    requires NoFlag(header, LOG_LEVEL) && NoFlag(header, MCP_ADDR)
    requires NoFlag(format + prefix + [config], LOG_LEVEL) && NoFlag(format + prefix + [config], MCP_ADDR)
    ensures var args := [config] + (core + format + mcp + header + prefix);
            && args[1] == core[0]
            && (forall i :: 0 <= i < |args| && i != 1 ==> args[i].flag != LOG_LEVEL)
            && (NoFlag(args, MCP_ADDR) <==> NoFlag(mcp, MCP_ADDR))
  {
    var args := [config] + (core + format + mcp + header + prefix);
    BlocksMcp(config, core, format, mcp, header, prefix, LOG_LEVEL);
    BlocksMcp(config, core, format, mcp, header, prefix, MCP_ADDR);
    var rest := core[1..] + format + mcp + header + prefix;
    BlocksMcp(config, core[1..], format, mcp, header, prefix, LOG_LEVEL);
    assert args == [config, core[0]] + rest;
    assert [config] + rest == [config] + (core[1..] + format + mcp + header + prefix);
    forall i | 0 <= i < |args| && i != 1 ensures args[i].flag != LOG_LEVEL {
      assert args[i] == ([config] + rest)[if i == 0 then 0 else i - 1];
    }
  }

  lemma BlocksMcp(config: Arg, core: seq<Arg>, format: seq<Arg>, mcp: seq<Arg>, header: seq<Arg>, prefix: seq<Arg>,
                  flag: string)
    ensures NoFlag([config] + (core + format + mcp + header + prefix), flag) <==>
              NoFlag(core, flag) && NoFlag(mcp, flag) && NoFlag(header, flag)
              && NoFlag(format + prefix + [config], flag)
  {
    NoFlagConcat([config], core + format + mcp + header + prefix, flag);
    NoFlagConcat(core + format + mcp + header, prefix, flag);
    NoFlagConcat(core + format + mcp, header, flag);
    NoFlagConcat(core + format, mcp, flag);
    NoFlagConcat(core, format, flag);
    NoFlagConcat(format + prefix, [config], flag);
    NoFlagConcat(format, prefix, flag);
  }

  /** No option value reads "-logLevel" in front of an argument that is not the wanted level. */
  predicate Quiet(b: Builder, needMCP: bool, hasBundle: bool, level: string) {
    var args := AllArgs(b, needMCP, hasBundle);
    forall i :: 0 <= i < |args| && args[i].value == LOG_LEVEL && NextOf(args, TailArgs(b), i).Some? ==>
      NextOf(args, TailArgs(b), i).value == level
  }

  /** Some option value reads "-mcpAddr" in front of another argument. */
  predicate McpEcho(b: Builder, needMCP: bool, hasBundle: bool) {
    var args := AllArgs(b, needMCP, hasBundle);
    exists i :: 0 <= i < |args| && args[i].value == MCP_ADDR && NextOf(args, TailArgs(b), i).Some?
  }

  lemma CommandLineChecks(b: Builder, needMCP: bool, hasBundle: bool, level: string)
    ensures LevelOk(CommandLine(b, needMCP, hasBundle), level) <==>
              b.logLevel == level && Quiet(b, needMCP, hasBundle, level)
    ensures HasMcp(CommandLine(b, needMCP, hasBundle)) <==> needMCP || McpEcho(b, needMCP, hasBundle)
  {
    var args, tail := AllArgs(b, needMCP, hasBundle), TailArgs(b);
    FlagsOf(b, needMCP, hasBundle);
    LevelInPairs(args, tail, level);
    McpInPairs(args, tail);
  }

  /** Exactly when a pod admitted under one configuration is accepted under another: same placement,
      image and log level, MCP if it is needed, and no option value that the checker takes for a
      flag. */
  lemma AcceptedIff(b: Builder, g: Gateway, spec: PodSpec, input: Input, hasLegacy: bool, hasBundle: bool, b': Builder,
                    input': Input)
    requires CleanTemplate(spec)
    ensures HasSideCar(Mutated(b, g, spec, input, hasLegacy, hasBundle), b'.asSideCar, b'.Image(input'), b'.logLevel,
                       input'.needMCP)
       <==> && b.asSideCar == b'.asSideCar && b.Image(input) == b'.Image(input') && b.logLevel == b'.logLevel
            && Quiet(b, input.needMCP, hasBundle, b'.logLevel)
            && (input'.needMCP ==> input.needMCP || McpEcho(b, input.needMCP, hasBundle))
  {
    RecognisedIff(b, g, spec, input, hasLegacy, hasBundle, b'.asSideCar, b'.Image(input'), b'.logLevel, input'.needMCP);
    CommandLineChecks(b, input.needMCP, hasBundle, b'.logLevel);
  }

  /** The configurable option values, as passed. */
  predicate Plain(value: string) { value != LOG_LEVEL && value != MCP_ADDR }

  predicate PlainOption(value: Option<string>) { value.Some? ==> Plain(value.value) }

  predicate PlainOptions(b: Builder) {
    && Plain(b.logLevel) && Plain(b.rootPrefix) && Plain(b.NonDefaultLogFormat()) && Plain(b.endpointPrefixes)
    && Plain(b.mcpSeed) && Plain(b.mcpFallbackSeed)
    && PlainOption(b.requestHeaders) && PlainOption(b.spanHeaders) && PlainOption(b.metricsHeaders)
    && PlainOption(b.logHeaders)
  }

  predicate PlainArgs(args: seq<Arg>) { forall i :: 0 <= i < |args| ==> Plain(args[i].value) }

  lemma PlainConcat(a: seq<Arg>, b: seq<Arg>)
    requires PlainArgs(a) && PlainArgs(b)
    ensures PlainArgs(a + b)
  {
  }

  lemma PlainNumber(n: int)
    ensures Plain(Itoa(n))
  {
    var s := Itoa(n);
    assert LOG_LEVEL[1] == 'l' && MCP_ADDR[1] == 'm';
    if n < 0 {
      assert s[1] == Digits(-n)[0];
    } else {
      assert IsDigit(s[0]);
    }
  }

  lemma PlainCore(b: Builder)
    requires PlainOptions(b)
    ensures PlainArgs(CoreArgs(b))
  {
    PlainNumber(b.maxRecvMsgSize);
    assert ("unix://" + b.udsPath)[0] == 'u';
  }

  lemma PlainMcp(b: Builder, needMCP: bool)
    requires PlainOptions(b)
    ensures PlainArgs(McpArgs(b, needMCP))
  {
    PlainNumber(b.mcpIterations);
    PlainNumber(b.mcpFallbackIterations);
  }

  lemma PlainHeaders(b: Builder)
    requires PlainOptions(b)
    ensures PlainArgs(HeaderArgs(b)) && PlainArgs(FormatArgs(b)) && PlainArgs(PrefixArgs(b))
  {
  }

  /** Options that do not read like those two flags are neither noisy nor an echo. */
  lemma PlainIsQuiet(b: Builder, needMCP: bool, hasBundle: bool)
    requires PlainOptions(b)
    ensures Quiet(b, needMCP, hasBundle, b.logLevel) && !McpEcho(b, needMCP, hasBundle)
  {
    PlainCore(b);
    PlainMcp(b, needMCP);
    PlainHeaders(b);
    var core, format, mcp := CoreArgs(b), FormatArgs(b), McpArgs(b, needMCP);
    var header, prefix := HeaderArgs(b), PrefixArgs(b);
    PlainConcat(core, format);
    PlainConcat(core + format, mcp);
    PlainConcat(core + format + mcp, header);
    PlainConcat(core + format + mcp + header, prefix);
    assert PlainArgs([ConfigArg(hasBundle)]);
    PlainConcat([ConfigArg(hasBundle)], BaseArgs(b, needMCP));
  }

  /** With such options the simple rule holds, for every combination of optional arguments. */
  lemma AcceptedIffPlain(b: Builder, g: Gateway, spec: PodSpec, input: Input, hasLegacy: bool, hasBundle: bool,
                         b': Builder, input': Input)
    requires CleanTemplate(spec) && PlainOptions(b)
    ensures HasSideCar(Mutated(b, g, spec, input, hasLegacy, hasBundle), b'.asSideCar, b'.Image(input'), b'.logLevel,
                       input'.needMCP)
       <==> && b.asSideCar == b'.asSideCar && b.Image(input) == b'.Image(input') && b.logLevel == b'.logLevel
            && (input'.needMCP ==> input.needMCP)
  {
    AcceptedIff(b, g, spec, input, hasLegacy, hasBundle, b', input');
    PlainIsQuiet(b, input.needMCP, hasBundle);
  }

  /** A pod admitted under a configuration is accepted under the same one exactly when the
      configuration is quiet. */
  lemma SelfAcceptedIff(b: Builder, g: Gateway, spec: PodSpec, input: Input, hasLegacy: bool, hasBundle: bool)
    requires CleanTemplate(spec)
    ensures HasSideCar(Mutated(b, g, spec, input, hasLegacy, hasBundle), b.asSideCar, b.Image(input), b.logLevel,
                       input.needMCP)
       <==> Quiet(b, input.needMCP, hasBundle, b.logLevel)
  {
    AcceptedIff(b, g, spec, input, hasLegacy, hasBundle, b, input);
  }

  /** A root prefix of "-logLevel" is not quiet: no pod admitted with it is ever accepted with it. */
  lemma NoisyRootPrefix(b: Builder, needMCP: bool, hasBundle: bool)
    requires b.rootPrefix == LOG_LEVEL && b.logLevel != "-maxRecvMsgSize"
    ensures !Quiet(b, needMCP, hasBundle, b.logLevel)
  {
    var args := AllArgs(b, needMCP, hasBundle);
    assert args[4] == CoreArgs(b)[3] && args[5] == CoreArgs(b)[4];
  }
}
