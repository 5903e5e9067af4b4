/** internal/controller/secret_name.go: the names of the Secrets and pod volumes that carry a
    Gateway's filter config. */
module Names {
  import opened Text

  predicate IsHex(c: char) { '0' <= c <= '9' || 'a' <= c <= 'f' }

  predicate AllHex(s: string) { forall i :: 0 <= i < |s| ==> IsHex(s[i]) }

  const HASH_LEN := 12
  const OBJECT_NAME_MAX := 253
  const VOLUME_NAME_MAX := 63
  const PREFIX := "ai-gateway-"
  const UDS_VOLUME := "ai-gateway-extproc-uds"
  const PART_MARK := "-part-"
  const BUNDLE_SUFFIX := "-bundle"

  /** What `shortStableHash` returns: six digest bytes in lower-case hex. */
  type ShortHash = h: string | |h| == HASH_LEN && AllHex(h) witness "000000000000"

  /** `strings.TrimLeft(s, "-")`. */
  function TrimLeftDash(s: string): (r: string)
    ensures |r| <= |s| && r == s[|s| - |r|..]
  {
    if s != "" && s[0] == '-' then TrimLeftDash(s[1..]) else s
  }

  /** `strings.TrimRight(s, "-")`. */
  function TrimRightDash(s: string): (r: string)
    ensures r <= s
  {
    if s != "" && s[|s| - 1] == '-' then TrimRightDash(s[..|s| - 1]) else s
  }

  /** `strings.Trim(s, "-")`. */
  function TrimDash(s: string): (r: string)
    ensures |r| <= |s|
  {
    TrimRightDash(TrimLeftDash(s))
  }

  /** The result always ends with the hash, after a dash unless the base is dropped, and fits
      the limit whenever the hash alone does. */
  function TruncateAndAppendHash(base: string, hash: string, maxLen: int): (r: string)
    ensures |hash| <= maxLen ==> |r| <= maxLen
    ensures r == hash || exists b :: r == b + "-" + hash
  {
    var trimmed := TrimDash(base);
    var name := trimmed + "-" + hash;
    if |name| <= maxLen then name else Shortened(trimmed, hash, maxLen)
  }

  /** As much of the front as there is room for. */
  function Shortened(trimmed: string, hash: string, maxLen: int): (r: string)
    ensures |hash| <= maxLen ==> |r| <= maxLen
    ensures r == hash || exists b :: r == b + "-" + hash
  {
    var allowed := maxLen - 1 - |hash|;
    if allowed <= 0 then hash else
      var kept := if allowed > |trimmed| then |trimmed| else allowed;
      var cut := TrimDash(trimmed[..kept]);
      if cut == "" then hash else cut + "-" + hash
  }

  function RawIdentity(gw: string, ns: string): string { ns + "/" + gw }

  function LegacySecretName(gw: string, ns: string): string { gw + "-" + ns }

  function IndexSecretName(sha: string -> ShortHash, gw: string, ns: string): string {
    TruncateAndAppendHash(LegacySecretName(gw, ns), sha(RawIdentity(gw, ns)), OBJECT_NAME_MAX)
  }

  function PartSuffix(slot: nat): string { PART_MARK + Pad3(slot) }

  /** The slot leaves room for the hash, so the slice of the base cannot be out of range. */
  predicate SlotFits(slot: nat) { |PartSuffix(slot)| + HASH_LEN + 1 <= OBJECT_NAME_MAX }

  function PartSecretName(sha: string -> ShortHash, gw: string, ns: string, slot: nat): string
    requires SlotFits(slot)
  {
    var base := gw + "-" + ns;
    var room := OBJECT_NAME_MAX - HASH_LEN - |PartSuffix(slot)| - 1;
    var head := if |base| > room then TrimRightDash(base[..room]) else base;
    head + "-" + sha(RawIdentity(gw, ns)) + PartSuffix(slot)
  }

  function VolumeBase(gw: string, ns: string): string { PREFIX + gw + "-" + ns }

  function BundleVolumeName(sha: string -> ShortHash, gw: string, ns: string): string {
    TruncateAndAppendHash(VolumeBase(gw, ns), sha(RawIdentity(gw, ns)), VOLUME_NAME_MAX - |BUNDLE_SUFFIX|)
      + BUNDLE_SUFFIX
  }

  function LegacyVolumeName(sha: string -> ShortHash, gw: string, ns: string): string {
    TruncateAndAppendHash(VolumeBase(gw, ns), sha(RawIdentity(gw, ns)), VOLUME_NAME_MAX)
  }

  function Tail(s: string, n: nat): string
    requires n <= |s|
  {
    s[|s| - n..]
  }

  lemma TruncatedEndsWithHash(base: string, hash: string, maxLen: int)
    ensures |hash| <= |TruncateAndAppendHash(base, hash, maxLen)|
    ensures Tail(TruncateAndAppendHash(base, hash, maxLen), |hash|) == hash
  {
    var r := TruncateAndAppendHash(base, hash, maxLen);
    if r != hash {
      var b :| r == b + "-" + hash;
      assert r == (b + "-") + hash;
    }
  }

  /** Every generated name fits the Kubernetes limit, whatever the length of the Gateway's name. */
  lemma NamesFit(sha: string -> ShortHash, gw: string, ns: string, slot: nat)
    requires SlotFits(slot)
    ensures |IndexSecretName(sha, gw, ns)| <= OBJECT_NAME_MAX
    ensures |PartSecretName(sha, gw, ns, slot)| <= OBJECT_NAME_MAX
    ensures |BundleVolumeName(sha, gw, ns)| <= VOLUME_NAME_MAX
    ensures |LegacyVolumeName(sha, gw, ns)| <= VOLUME_NAME_MAX
  {
  }

  /** Two Gateways share an index Secret only if their identity hashes collide. */
  lemma IndexNamesCollide(sha: string -> ShortHash, gw: string, ns: string, gw': string, ns': string)
    requires IndexSecretName(sha, gw, ns) == IndexSecretName(sha, gw', ns')
    ensures sha(ns + "/" + gw) == sha(ns' + "/" + gw')
  {
    TruncatedEndsWithHash(LegacySecretName(gw, ns), sha(RawIdentity(gw, ns)), OBJECT_NAME_MAX);
    TruncatedEndsWithHash(LegacySecretName(gw', ns'), sha(RawIdentity(gw', ns')), OBJECT_NAME_MAX);
  }

  lemma PartShapeInjective(x: string, h: ShortHash, d: string, x': string, h': ShortHash, d': string)
    requires '-' !in d && '-' !in d'
    requires x + h + "-part" + Sep('-') + d == x' + h' + "-part" + Sep('-') + d'
    ensures h == h' && d == d'
  {
    LastSepInjective(x + h + "-part", d, x' + h' + "-part", d', '-');
    SameTail(x + h, "-part", x' + h', "-part");
    SameTail(x, h, x', h');
  }

  lemma PartShape(sha: string -> ShortHash, gw: string, ns: string, slot: nat) returns (x: string)
    requires SlotFits(slot)
    ensures PartSecretName(sha, gw, ns, slot) == x + sha(RawIdentity(gw, ns)) + "-part" + Sep('-') + Pad3(slot)
  {
    var base := gw + "-" + ns;
    var room := OBJECT_NAME_MAX - HASH_LEN - |PartSuffix(slot)| - 1;
    var head := if |base| > room then TrimRightDash(base[..room]) else base;
    x := head + "-";
    var h := sha(RawIdentity(gw, ns));
    assert PartSuffix(slot) == "-part" + Sep('-') + Pad3(slot);
    assert x + h + ("-part" + Sep('-') + Pad3(slot)) == x + h + "-part" + Sep('-') + Pad3(slot);
  }

  /** Two part Secrets share a name only if both the hashes and the slots agree, for every slot. */
  lemma PartNamesCollide(sha: string -> ShortHash, gw: string, ns: string, slot: nat, gw': string, ns': string,
                         slot': nat)
    requires SlotFits(slot) && SlotFits(slot')
    requires PartSecretName(sha, gw, ns, slot) == PartSecretName(sha, gw', ns', slot')
    ensures slot == slot' && sha(ns + "/" + gw) == sha(ns' + "/" + gw')
  {
    var x := PartShape(sha, gw, ns, slot);
    var x' := PartShape(sha, gw', ns', slot');
    PartShapeInjective(x, sha(RawIdentity(gw, ns)), Pad3(slot), x', sha(RawIdentity(gw', ns')), Pad3(slot'));
    ValuePad3(slot);
    ValuePad3(slot');
  }

  /** An index Secret is never a part Secret of any Gateway: slots of up to eleven digits leave a
      dash inside the twelve characters where an index name holds its hash. */
  lemma IndexIsNotPart(sha: string -> ShortHash, gw: string, ns: string, gw': string, ns': string, slot: nat)
    requires |Pad3(slot)| < HASH_LEN
    ensures IndexSecretName(sha, gw, ns) != PartSecretName(sha, gw', ns', slot)
  {
    var i, p := IndexSecretName(sha, gw, ns), PartSecretName(sha, gw', ns', slot);
    var h := sha(RawIdentity(gw, ns));
    TruncatedEndsWithHash(LegacySecretName(gw, ns), h, OBJECT_NAME_MAX);
    var k := |p| - |Pad3(slot)| - 1;
    assert p[k] == '-';
    if |i| == |p| {
      assert i[k] == Tail(i, HASH_LEN)[k - (|p| - HASH_LEN)] == h[k - (|p| - HASH_LEN)];
      assert IsHex(i[k]);
    }
  }

  /** Every character of the hash is found at the end of the truncated name. */
  lemma HashAtEnd(base: string, hash: ShortHash, maxLen: int, k: nat)
    requires 1 <= k <= HASH_LEN
    ensures var r := TruncateAndAppendHash(base, hash, maxLen); |r| >= k && IsHex(r[|r| - k])
  {
    TruncatedEndsWithHash(base, hash, maxLen);
    var r := TruncateAndAppendHash(base, hash, maxLen);
    assert r[|r| - k] == Tail(r, HASH_LEN)[HASH_LEN - k] == hash[HASH_LEN - k];
  }

  /** The three volumes `mutatePod` adds to one pod have pairwise different names. */
  lemma VolumesDistinct(sha: string -> ShortHash, gw: string, ns: string, gw': string, ns': string)
    ensures BundleVolumeName(sha, gw, ns) != LegacyVolumeName(sha, gw', ns')
    ensures BundleVolumeName(sha, gw, ns) != UDS_VOLUME
    ensures LegacyVolumeName(sha, gw, ns) != UDS_VOLUME
  {
    var b := BundleVolumeName(sha, gw, ns);
    assert b[|b| - 2] == 'l' && b[|b| - 1] == 'e';
    HashAtEnd(VolumeBase(gw, ns), sha(RawIdentity(gw, ns)), VOLUME_NAME_MAX, 1);
    HashAtEnd(VolumeBase(gw', ns'), sha(RawIdentity(gw', ns')), VOLUME_NAME_MAX, 2);
  }

  lemma TrimDashKeeps(s: string)
    requires s != "" && s[0] != '-' && s[|s| - 1] != '-'
    ensures TrimDash(s) == s
  {
  }

  lemma TruncateKeeps(base: string, hash: string, maxLen: int)
    requires base != "" && base[0] != '-' && base[|base| - 1] != '-' && |base| + 1 + |hash| <= maxLen
    ensures TruncateAndAppendHash(base, hash, maxLen) == base + "-" + hash
  {
    TrimDashKeeps(base);
  }

  /** Names that fit are not shortened: ordinary Gateways keep readable names. */
  lemma ShortNamesReadable(sha: string -> ShortHash, gw: string, ns: string, slot: nat)
    requires gw != "" && ns != "" && gw[0] != '-' && ns[|ns| - 1] != '-'
    requires |gw| + |ns| + |PartSuffix(slot)| + HASH_LEN + 2 <= OBJECT_NAME_MAX
    ensures IndexSecretName(sha, gw, ns) == gw + "-" + ns + "-" + sha(ns + "/" + gw)
    ensures PartSecretName(sha, gw, ns, slot) == IndexSecretName(sha, gw, ns) + "-part-" + Pad3(slot)
  {
    TruncateKeeps(LegacySecretName(gw, ns), sha(RawIdentity(gw, ns)), OBJECT_NAME_MAX);
  }

  /** The same for the volumes, which have less room. */
  lemma ShortVolumesReadable(sha: string -> ShortHash, gw: string, ns: string)
    requires ns != "" && ns[|ns| - 1] != '-' && |gw| + |ns| <= 31
    ensures LegacyVolumeName(sha, gw, ns) == "ai-gateway-" + gw + "-" + ns + "-" + sha(ns + "/" + gw)
    ensures BundleVolumeName(sha, gw, ns) == LegacyVolumeName(sha, gw, ns) + "-bundle"
  {
    var base := VolumeBase(gw, ns);
    assert |PREFIX| == 11 && |BUNDLE_SUFFIX| == 7;
    assert base[0] == 'a' && base[|base| - 1] == ns[|ns| - 1];
    TruncateKeeps(base, sha(RawIdentity(gw, ns)), VOLUME_NAME_MAX);
    TruncateKeeps(base, sha(RawIdentity(gw, ns)), VOLUME_NAME_MAX - |BUNDLE_SUFFIX|);
  }

  /** What is hashed tells Gateways apart: a namespace holds no slash. */
  lemma IdentityInjective(gw: string, ns: string, gw': string, ns': string)
    requires '/' !in ns && '/' !in ns'
    ensures RawIdentity(gw, ns) == RawIdentity(gw', ns') <==> gw == gw' && ns == ns'
  {
    if RawIdentity(gw, ns) == RawIdentity(gw', ns') {
      FirstSepInjective(ns, gw, ns', gw', '/');
    }
  }

  lemma {:induction false} TrimmedRight(s: string)
    requires s != "" && s[0] != '-'
    ensures var r := TrimRightDash(s);
            && r != "" && r <= s && r[|r| - 1] != '-'
            && forall i :: |r| <= i < |s| ==> s[i] == '-'
  {
    if s[|s| - 1] == '-' {
      TrimmedRight(s[..|s| - 1]);
    }
  }

  lemma {:induction false} ShortenedKeepsFront(trimmed: string, hash: string, maxLen: int) returns (b: string)
    requires trimmed != "" && trimmed[0] != '-' && |hash| + 1 < maxLen < |trimmed| + 1 + |hash|
    ensures Shortened(trimmed, hash, maxLen) == b + "-" + hash
    ensures b != "" && b <= trimmed && b[|b| - 1] != '-' && |b| <= maxLen - 1 - |hash|
    ensures forall i :: |b| <= i < maxLen - 1 - |hash| ==> trimmed[i] == '-'
  {
    var cut := trimmed[..maxLen - 1 - |hash|];
    assert TrimLeftDash(cut) == cut;
    TrimmedRight(cut);
    b := TrimRightDash(cut);
  }

  /** A name that does not fit keeps as much of its front as there is room for, but for dashes at the cut. */
  lemma {:induction false} TruncatedKeepsFront(base: string, hash: string, maxLen: int) returns (b: string)
    requires base != "" && base[0] != '-' && base[|base| - 1] != '-'
    requires |hash| + 1 < maxLen < |base| + 1 + |hash|
    ensures TruncateAndAppendHash(base, hash, maxLen) == b + "-" + hash
    ensures b != "" && b <= base && b[|b| - 1] != '-' && |b| <= maxLen - 1 - |hash|
    ensures forall i :: |b| <= i < maxLen - 1 - |hash| ==> base[i] == '-'
  {
    b := ShortenedKeepsFront(base, hash, maxLen);
    TruncateCuts(base, hash, maxLen);
  }

  lemma {:induction false} TruncateCuts(base: string, hash: string, maxLen: int)
    requires base != "" && base[0] != '-' && base[|base| - 1] != '-' && |base| + 1 + |hash| > maxLen
    ensures TruncateAndAppendHash(base, hash, maxLen) == Shortened(base, hash, maxLen)
  {
    TrimDashKeeps(base);
  }

  /** Two Gateways share the legacy Secret's name exactly when they are one Gateway, or one Gateway's name
      continues the other's after a dash and the namespaces make up for it: it carries no hash. */
  lemma LegacyNamesClashIff(gw: string, ns: string, gw': string, ns': string)
    ensures LegacySecretName(gw, ns) == LegacySecretName(gw', ns') <==>
              (gw == gw' && ns == ns') || CutDifferently(gw, ns, gw', ns') || CutDifferently(gw', ns', gw, ns)
  {
    StemsEqualIff(gw, ns, gw', ns');
  }

  /** Such Gateways exist: `a` in `b-c`, and `a-b` in `c`. */
  lemma LegacyNamesCanClash()
    ensures LegacySecretName("a", "b-c") == LegacySecretName("a-b", "c")
  {
    assert "a" + "-" + "b-c" == "a-b-c" == "a-b" + "-" + "c";
  }
}
