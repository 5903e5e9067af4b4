/** The InferencePool reference carried through cluster and route metadata as one string: printed
    by internal/extensionserver/post_cluster_modify.go, parsed by inferencepool.go. */
module InferencePool {
  import opened Text

  const METADATA_NAMESPACE := "aigateway.envoy.io"
  const METADATA_KEY := "per_route_rule_inference_pool"
  const DEFAULT_PORT := 9002
  const BODY_MODE_ANNOTATION := "aigateway.envoyproxy.io/processing-body-mode"
  const OVERRIDE_ANNOTATION := "aigateway.envoyproxy.io/allow-mode-override"

  datatype Pool = Pool(ns: string, name: string, service: string, port: Option<int>, annotations: map<string, string>)

  datatype BodyMode = FullDuplexStreamed | Buffered

  datatype Value = StringValue(s: string) | OtherValue(tag: int)

  function GetString(v: Value): string { if v.StringValue? then v.s else "" }

  /* ---- What is derived from a pool ---- */

  function Annotation(p: Pool, key: string): Option<string> {
    if key in p.annotations then Some(p.annotations[key]) else None
  }

  function Port(p: Pool): (n: nat)
    ensures n <= 65535
  {
    if p.port.None? || p.port.value < 0 || p.port.value > 65535 then DEFAULT_PORT else p.port.value
  }

  function BodyModeString(p: Pool): string { Deref(Annotation(p, BODY_MODE_ANNOTATION), "duplex") }

  function OverrideString(p: Pool): string { Deref(Annotation(p, OVERRIDE_ANNOTATION), "false") }

  function ProcessingBodyMode(p: Pool): BodyMode {
    if Annotation(p, BODY_MODE_ANNOTATION) == Some("buffered") then Buffered else FullDuplexStreamed
  }

  predicate AllowModeOverride(p: Pool) { Annotation(p, OVERRIDE_ANNOTATION) == Some("true") }

  function DnsName(p: Pool): string { p.service + "." + p.ns + ".svc" }

  function Authority(p: Pool): string { p.service + "." + p.ns + ".svc:" + Digits(Port(p)) }

  function ClusterName(p: Pool): string {
    "envoy.clusters.endpointpicker_" + p.name + "_" + p.ns + "_ext_proc"
  }

  function FilterName(p: Pool): string {
    "envoy.filters.http.ext_proc/endpointpicker/" + p.name + "_" + p.ns + "_ext_proc"
  }

  /** Everything the EPP cluster and HTTP filter are built from. */
  datatype Derived = Derived(cluster: string, filter: string, authority: string, dns: string, port: nat,
                             mode: BodyMode, allowOverride: bool)

  function Derive(p: Pool): Derived {
    Derived(ClusterName(p), FilterName(p), Authority(p), DnsName(p), Port(p), ProcessingBodyMode(p),
            AllowModeOverride(p))
  }

  /** What the cluster and the filter are built from, spelled out. A port outside the range of ports, or
      none, becomes 9002; only "buffered" and "true" change the mode and the override. */
  lemma DerivedIs(p: Pool)
    ensures var d := Derive(p);
            && d.cluster == "envoy.clusters.endpointpicker_" + p.name + "_" + p.ns + "_ext_proc"
            && d.filter == "envoy.filters.http.ext_proc/endpointpicker/" + p.name + "_" + p.ns + "_ext_proc"
            && d.dns == p.service + "." + p.ns + ".svc"
            && d.authority == d.dns + ":" + Digits(d.port)
            && d.port == (match p.port
                          case None => 9002
                          case Some(n) => if 0 <= n <= 65535 then n else 9002)
            && (d.mode.Buffered? <==>
                  "aigateway.envoyproxy.io/processing-body-mode" in p.annotations
                  && p.annotations["aigateway.envoyproxy.io/processing-body-mode"] == "buffered")
            && (d.allowOverride <==>
                  "aigateway.envoyproxy.io/allow-mode-override" in p.annotations
                  && p.annotations["aigateway.envoyproxy.io/allow-mode-override"] == "true")
  {
    assert ".svc:" == ".svc" + ":";
    assert Authority(p) == DnsName(p) + ":" + Digits(Port(p));
  }

  /** Different pools never share an endpoint-picker cluster: their names hold no underscore. */
  lemma ClusterNamesDistinct(p: Pool, q: Pool)
    requires '_' !in p.name && '_' !in q.name
    ensures ClusterName(p) == ClusterName(q) <==> p.name == q.name && p.ns == q.ns
  {
    if ClusterName(p) == ClusterName(q) {
      var head := "envoy.clusters.endpointpicker_";
      assert ClusterName(p) == head + (p.name + Sep('_') + p.ns + "_ext_proc");
      assert ClusterName(q) == head + (q.name + Sep('_') + q.ns + "_ext_proc");
      assert p.name + Sep('_') + p.ns + "_ext_proc" == ClusterName(p)[|head|..];
      assert q.name + Sep('_') + q.ns + "_ext_proc" == ClusterName(q)[|head|..];
      SameTail(p.name + Sep('_') + p.ns, "_ext_proc", q.name + Sep('_') + q.ns, "_ext_proc");
      FirstSepInjective(p.name, p.ns, q.name, q.ns, '_');
    }
  }

  /* ---- The codec ---- */

  function ClusterRef(ns: string, name: string, service: string, port: nat, mode: string, allow: string): string {
    ns + "/" + name + "/" + service + "/" + Digits(port) + "/" + mode + "/" + allow
  }

  function Encode(p: Pool): string {
    ClusterRef(p.ns, p.name, p.service, Port(p), BodyModeString(p), OverrideString(p))
  }

  function Decode(metadata: string): Option<Pool> {
    var parts := Split(metadata, '/');
    if |parts| != 6 then None else
      var port := ParseInt32(parts[3]);
      if port.None? then None else
        Some(Pool(parts[0], parts[1], parts[2], port,
                  map[BODY_MODE_ANNOTATION := parts[4], OVERRIDE_ANNOTATION := parts[5]]))
  }

  /** The string the printer writes: the port as a number, "duplex" and "false" for absent annotations. */
  lemma EncodedIs(p: Pool)
    ensures Encode(p) ==
              p.ns + "/" + p.name + "/" + p.service + "/"
              + Digits(match p.port
                       case None => 9002
                       case Some(n) => if 0 <= n <= 65535 then n else 9002) + "/"
              + (if "aigateway.envoyproxy.io/processing-body-mode" in p.annotations
                 then p.annotations["aigateway.envoyproxy.io/processing-body-mode"] else "duplex") + "/"
              + (if "aigateway.envoyproxy.io/allow-mode-override" in p.annotations
                 then p.annotations["aigateway.envoyproxy.io/allow-mode-override"] else "false")
  {
  }

  /** The parser takes exactly six fields, the fourth a number, each into its own place. */
  lemma DecodeSix(a: string, b: string, c: string, port: string, mode: string, allow: string)
    requires AllFree([a, b, c, port, mode, allow], '/')
    ensures var r := Decode(a + "/" + b + "/" + c + "/" + port + "/" + mode + "/" + allow);
            && (r.Some? <==> ParseInt32(port).Some?)
            && (r.Some? ==>
                  && r.value.ns == a && r.value.name == b && r.value.service == c
                  && r.value.port == ParseInt32(port)
                  && r.value.annotations == map["aigateway.envoyproxy.io/processing-body-mode" := mode,
                                                "aigateway.envoyproxy.io/allow-mode-override" := allow])
  {
    JoinSix(a, b, c, port, mode, allow);
    SplitJoin([a, b, c, port, mode, allow], '/');
  }

  function Fields(p: Pool): (parts: seq<string>)
    ensures |parts| == 6
  {
    [p.ns, p.name, p.service, Digits(Port(p)), BodyModeString(p), OverrideString(p)]
  }

  lemma JoinSix(a: string, b: string, c: string, d: string, e: string, f: string)
    ensures Join([a, b, c, d, e, f], '/') == a + "/" + b + "/" + c + "/" + d + "/" + e + "/" + f
  {
    assert [a, b, c, d, e, f] == [a] + [b, c, d, e, f] && [b, c, d, e, f] == [b] + [c, d, e, f];
    assert [c, d, e, f] == [c] + [d, e, f] && [d, e, f] == [d] + [e, f] && [e, f] == [e] + [f];
    JoinCons(a, [b, c, d, e, f], '/');
    JoinCons(b, [c, d, e, f], '/');
    JoinCons(c, [d, e, f], '/');
    JoinCons(d, [e, f], '/');
    JoinCons(e, [f], '/');
  }

  lemma EncodeIsJoin(p: Pool)
    ensures Encode(p) == Join(Fields(p), '/')
  {
    JoinSix(p.ns, p.name, p.service, Digits(Port(p)), BodyModeString(p), OverrideString(p));
  }

  /** None of the five free-form fields holds the separator. */
  predicate SlashFree(p: Pool) {
    '/' !in p.ns && '/' !in p.name && '/' !in p.service && '/' !in BodyModeString(p) && '/' !in OverrideString(p)
  }

  lemma NoSlashInDigits(s: string)
    requires AllDigits(s)
    ensures '/' !in s
  {
  }

  lemma FieldsFree(p: Pool)
    ensures AllFree(Fields(p), '/') <==> SlashFree(p)
  {
    var f := Fields(p);
    NoSlashInDigits(Digits(Port(p)));
    if AllFree(f, '/') {
      assert '/' !in f[0] && '/' !in f[1] && '/' !in f[2] && '/' !in f[4] && '/' !in f[5];
    }
  }

  /** What the parser makes of the printer's output. */
  lemma DecodeEncoded(p: Pool)
    ensures Decode(Encode(p)) ==
              if SlashFree(p)
              then Some(Pool(p.ns, p.name, p.service, Some(Port(p)),
                             map[BODY_MODE_ANNOTATION := BodyModeString(p), OVERRIDE_ANNOTATION := OverrideString(p)]))
              else None
  {
    EncodeIsJoin(p);
    SplitJoin(Fields(p), '/');
    FieldsFree(p);
    ParseDigits(Port(p));
  }

  /** The parser accepts what the printer wrote exactly when no field holds a slash; what it then
      returns derives the same cluster, filter, authority, DNS name, port, mode and override, all
      defaults and fallbacks included, and prints as the same string. */
  lemma RoundTrip(p: Pool)
    ensures Decode(Encode(p)).Some? <==> SlashFree(p)
    ensures SlashFree(p) ==> Derive(Decode(Encode(p)).value) == Derive(p)
    ensures SlashFree(p) ==> Encode(Decode(Encode(p)).value) == Encode(p)
  {
    DecodeEncoded(p);
  }

  /* ---- Metadata in place ---- */

  type Struct = map<string, Value>

  /** An Envoy `core.v3.Metadata`, as found on a cluster or a route. */
  class Metadata {
    var filterMetadata: map<string, Struct>

    constructor (filterMetadata: map<string, Struct>)
      ensures this.filterMetadata == filterMetadata
    {
      this.filterMetadata := filterMetadata;
    }

    /** Writes one field of one namespace; every other field and namespace stays. */
    method BuildEPPMetadata(pool: Pool)
      modifies this
      ensures METADATA_NAMESPACE in filterMetadata
      ensures forall ns :: ns != METADATA_NAMESPACE ==>
                (ns in filterMetadata <==> ns in old(filterMetadata))
                && (ns in filterMetadata ==> filterMetadata[ns] == old(filterMetadata)[ns])
      ensures filterMetadata[METADATA_NAMESPACE]
           == Namespace(old(filterMetadata))[METADATA_KEY := StringValue(Encode(pool))]
      ensures "aigateway.envoy.io" in filterMetadata
              && "per_route_rule_inference_pool" in filterMetadata["aigateway.envoy.io"]
              && filterMetadata["aigateway.envoy.io"]["per_route_rule_inference_pool"] == StringValue(Encode(pool))
      ensures SlashFree(pool) <==> PoolOf(filterMetadata).Some?
      ensures SlashFree(pool) ==> Derive(PoolOf(filterMetadata).value) == Derive(pool)
    {
      var m: Struct := if METADATA_NAMESPACE in filterMetadata then filterMetadata[METADATA_NAMESPACE] else map[];
      m := m[METADATA_KEY := StringValue(ClusterRef(pool.ns, pool.name, pool.service, Port(pool),
                                                    BodyModeString(pool), OverrideString(pool)))];
      filterMetadata := filterMetadata[METADATA_NAMESPACE := m];
      RoundTrip(pool);
    }
  }

  function Namespace(md: map<string, Struct>): Struct {
    if METADATA_NAMESPACE in md then md[METADATA_NAMESPACE] else map[]
  }

  /** `getInferencePoolByMetadata`. */
  function PoolOf(md: map<string, Struct>): Option<Pool> {
    var fields := Namespace(md);
    Decode(if METADATA_KEY in fields then GetString(fields[METADATA_KEY]) else "")
  }
}
