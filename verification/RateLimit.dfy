/** internal/ratelimit/translator/merge.go: merging the rate-limit descriptor trees of several
    policies into one. */
module RateLimit {
  import opened Text

  datatype Limit = Limit(requestsPerUnit: nat, unit: nat)

  datatype Descriptor = Descriptor(key: string, value: string, limit: Option<Limit>,
                                   quotaMode: bool, shadowMode: bool, children: seq<Descriptor>)

  /** The string two descriptors are matched by. */
  function Id(d: Descriptor): string { d.key + "\0" + d.value }

  /** NUL-free keys make the string as good as the pair. */
  lemma IdInjective(d: Descriptor, e: Descriptor)
    requires '\0' !in d.key && '\0' !in e.key && Id(d) == Id(e)
    ensures d.key == e.key && d.value == e.value
  {
    FirstSepInjective(d.key, d.value, e.key, e.value, '\0');
  }

  /* ---- What a descriptor list means at a path ---- */

  /** The observable settings of a set of nodes: the first limit wins, the modes accumulate. */
  datatype Meaning = Meaning(present: bool, limit: Option<Limit>, quota: bool, shadow: bool) {
    function Then(m: Meaning): Meaning {
      Meaning(present || m.present, if limit.Some? then limit else m.limit, quota || m.quota, shadow || m.shadow)
    }
  }

  const NOTHING := Meaning(false, None, false, false)

  function Own(d: Descriptor): Meaning { Meaning(true, d.limit, d.quotaMode, d.shadowMode) }

  /** The settings at a non-empty path of ids, list order deciding which limit is first. */
  function At(descs: seq<Descriptor>, path: seq<string>): Meaning
    requires path != []
    decreases descs
  {
    if descs == [] then NOTHING else At1(descs[0], path).Then(At(descs[1..], path))
  }

  function At1(d: Descriptor, path: seq<string>): Meaning
    requires path != []
    decreases d, 0
  {
    if Id(d) != path[0] then NOTHING else if |path| == 1 then Own(d) else At(d.children, path[1..])
  }

  lemma {:induction false} AtConcat(a: seq<Descriptor>, b: seq<Descriptor>, path: seq<string>)
    requires path != []
    ensures At(a + b, path) == At(a, path).Then(At(b, path))
    decreases |a|
  {
    if a == [] {
      assert a + b == b;
    } else {
      assert (a + b)[0] == a[0] && (a + b)[1..] == a[1..] + b;
      AtConcat(a[1..], b, path);
    }
  }

  /* ---- The merge ---- */

  function Size(descs: seq<Descriptor>): nat {
    if descs == [] then 0 else 1 + Size(descs[0].children) + Size(descs[1..])
  }

  lemma {:induction false} SizeConcat(a: seq<Descriptor>, b: seq<Descriptor>)
    ensures Size(a + b) == Size(a) + Size(b)
    decreases |a|
  {
    if a == [] {
      assert a + b == b;
    } else {
      assert (a + b)[0] == a[0] && (a + b)[1..] == a[1..] + b;
      SizeConcat(a[1..], b);
    }
  }

  lemma SizeSplit(acc: seq<Descriptor>, i: nat, e: Descriptor)
    requires i < |acc|
    ensures Size(acc) == Size(acc[..i]) + 1 + Size(acc[i].children) + Size(acc[i + 1..])
    ensures Size(acc[i := e]) == Size(acc[..i]) + 1 + Size(e.children) + Size(acc[i + 1..])
  {
    SizeAround(acc, i);
    SizeAround(acc[i := e], i);
    assert acc[i := e][..i] == acc[..i] && acc[i := e][i + 1..] == acc[i + 1..];
  }

  lemma SizeAround(acc: seq<Descriptor>, i: nat)
    requires i < |acc|
    ensures Size(acc) == Size(acc[..i]) + 1 + Size(acc[i].children) + Size(acc[i + 1..])
  {
    assert acc == acc[..i] + acc[i..];
    SizeConcat(acc[..i], acc[i..]);
    assert acc[i..][0] == acc[i] && acc[i..][1..] == acc[i + 1..];
  }

  /** The position of an entry, or the length when there is none. */
  function Find(acc: seq<Descriptor>, id: string): (i: nat)
    ensures i <= |acc|
    ensures i < |acc| ==> Id(acc[i]) == id
    ensures forall j :: 0 <= j < i ==> Id(acc[j]) != id
  {
    if acc == [] then 0 else if Id(acc[0]) == id then 0 else
      var i := 1 + Find(acc[1..], id);
      assert forall j :: 1 <= j < i ==> Id(acc[j]) == Id(acc[1..][j - 1]);
      i
  }

  function Merge(descs: seq<Descriptor>): (r: seq<Descriptor>)
    ensures Size(r) <= Size(descs)
    decreases Size(descs), |descs|, 1
  {
    Fold([], descs)
  }

  function Fold(acc: seq<Descriptor>, descs: seq<Descriptor>): (r: seq<Descriptor>)
    ensures Size(r) <= Size(acc) + Size(descs)
    decreases Size(acc) + Size(descs), |descs|, 0
  {
    if descs == [] then acc else Fold(Absorb(acc, descs[0], |descs|), descs[1..])
  }

  /** One more descriptor: a new entry, or folded into the entry of the same id. `todo` only
      orders the recursion. */
  function Absorb(acc: seq<Descriptor>, d: Descriptor, todo: nat): (r: seq<Descriptor>)
    requires todo > 0
    ensures Size(r) <= Size(acc) + 1 + Size(d.children)
    decreases Size(acc) + 1 + Size(d.children), todo - 1, 2
  {
    var i := Find(acc, Id(d));
    if i == |acc| then
      SizeConcat(acc, [d]);
      acc + [d]
    else
      SizeSplit(acc, i, acc[i]);
      SizeConcat(acc[i].children, d.children);
      var e := Combine(acc[i], d, if d.children == [] then acc[i].children else Merge(acc[i].children + d.children));
      SizeSplit(acc, i, e);
      acc[i := e]
  }

  function Combine(e: Descriptor, d: Descriptor, children: seq<Descriptor>): Descriptor {
    e.(children := children, limit := if e.limit.None? then d.limit else e.limit,
       quotaMode := e.quotaMode || d.quotaMode, shadowMode := e.shadowMode || d.shadowMode)
  }

  predicate Unique(acc: seq<Descriptor>) {
    forall i, j :: 0 <= i < j < |acc| ==> Id(acc[i]) != Id(acc[j])
  }

  lemma {:induction false} FoldUnique(acc: seq<Descriptor>, descs: seq<Descriptor>)
    requires Unique(acc)
    ensures Unique(Fold(acc, descs))
    decreases |descs|
  {
    if descs != [] {
      FoldUnique(Absorb(acc, descs[0], |descs|), descs[1..]);
    }
  }

  /** No two entries of a merged list share an id. */
  lemma MergeUnique(descs: seq<Descriptor>)
    ensures Unique(Merge(descs))
  {
    FoldUnique([], descs);
  }

  /** Entries with other ids contribute nothing. */
  lemma {:induction false} AtElsewhere(acc: seq<Descriptor>, path: seq<string>)
    requires path != [] && forall j :: 0 <= j < |acc| ==> Id(acc[j]) != path[0]
    ensures At(acc, path) == NOTHING
    decreases |acc|
  {
    if acc != [] {
      AtElsewhere(acc[1..], path);
    }
  }

  lemma AtAround(acc: seq<Descriptor>, i: nat, path: seq<string>)
    requires i < |acc| && path != []
    ensures At(acc, path) == At(acc[..i], path).Then(At1(acc[i], path)).Then(At(acc[i + 1..], path))
  {
    assert acc == acc[..i] + acc[i..];
    AtConcat(acc[..i], acc[i..], path);
    assert acc[i..][0] == acc[i] && acc[i..][1..] == acc[i + 1..];
  }

  lemma ThenAssoc(a: Meaning, b: Meaning, c: Meaning)
    ensures a.Then(b).Then(c) == a.Then(b.Then(c))
  {
  }

  lemma ThenMoves(a: Meaning, e: Meaning, b: Meaning, d: Meaning)
    requires d == NOTHING || b == NOTHING
    ensures a.Then(e.Then(d)).Then(b) == a.Then(e).Then(b).Then(d)
  {
  }

  /** Merging changes the settings of no path: each keeps its first limit in list order and every
      mode any of its occurrences has. */
  lemma {:induction false} MergePreserves(descs: seq<Descriptor>, path: seq<string>)
    requires path != []
    ensures At(Merge(descs), path) == At(descs, path)
    decreases Size(descs), |descs|, 1
  {
    FoldPreserves([], descs, path);
  }

  lemma {:induction false} FoldPreserves(acc: seq<Descriptor>, descs: seq<Descriptor>, path: seq<string>)
    requires path != [] && Unique(acc)
    ensures At(Fold(acc, descs), path) == At(acc, path).Then(At(descs, path))
    decreases Size(acc) + Size(descs), |descs|, 0
  {
    if descs != [] {
      var d, rest := descs[0], descs[1..];
      var next := Absorb(acc, d, |descs|);
      AbsorbPreserves(acc, d, |descs|, path);
      FoldPreserves(next, rest, path);
      ThenAssoc(At(acc, path), At1(d, path), At(rest, path));
    }
  }

  lemma {:induction false} AbsorbPreserves(acc: seq<Descriptor>, d: Descriptor, todo: nat, path: seq<string>)
    requires todo > 0 && path != [] && Unique(acc)
    ensures At(Absorb(acc, d, todo), path) == At(acc, path).Then(At1(d, path))
    ensures Unique(Absorb(acc, d, todo))
    decreases Size(acc) + 1 + Size(d.children), todo - 1, 2
  {
    var i := Find(acc, Id(d));
    if i == |acc| {
      AtConcat(acc, [d], path);
      assert At([d], path) == At1(d, path).Then(At([d][1..], path));
    } else {
      var r := Absorb(acc, d, todo);
      AtAround(acc, i, path);
      AtAround(r, i, path);
      assert r[..i] == acc[..i] && r[i + 1..] == acc[i + 1..];
      SizeSplit(acc, i, acc[i]);
      CombinedAt(acc[i], d, path);
      if Id(d) == path[0] {
        AtElsewhere(acc[i + 1..], path);
      }
      ThenMoves(At(acc[..i], path), At1(acc[i], path), At(acc[i + 1..], path), At1(d, path));
    }
  }

  /** Two entries of one id folded into one mean what they meant one after the other. */
  lemma {:induction false} CombinedAt(e: Descriptor, d: Descriptor, path: seq<string>)
    requires path != [] && Id(e) == Id(d)
    ensures At1(Combine(e, d, if d.children == [] then e.children else Merge(e.children + d.children)), path)
         == At1(e, path).Then(At1(d, path))
    decreases 1 + Size(e.children) + Size(d.children), 0, 1
  {
    if Id(d) == path[0] && |path| > 1 {
      CombinedChildren(e, d, path[1..]);
    }
  }

  lemma {:induction false} CombinedChildren(e: Descriptor, d: Descriptor, path: seq<string>)
    requires path != []
    ensures At(if d.children == [] then e.children else Merge(e.children + d.children), path)
         == At(e.children, path).Then(At(d.children, path))
    decreases 1 + Size(e.children) + Size(d.children), 0, 0
  {
    SizeConcat(e.children, d.children);
    AtConcat(e.children, d.children, path);
    if d.children != [] {
      MergePreserves(e.children + d.children, path);
    }
  }

  /* ---- What becomes of the children ---- */

  predicate Occurs(descs: seq<Descriptor>, id: string) {
    descs != [] && (Occurs(descs[..|descs| - 1], id) || Id(descs[|descs| - 1]) == id)
  }

  /** The children of all descriptors with this id, in order. */
  function ChildrenOf(descs: seq<Descriptor>, id: string): seq<Descriptor> {
    if descs == [] then [] else
      var last := descs[|descs| - 1];
      ChildrenOf(descs[..|descs| - 1], id) + (if Id(last) == id then last.children else [])
  }

  /** The children of the first descriptor with this id. */
  function FirstChildren(descs: seq<Descriptor>, id: string): seq<Descriptor> {
    if descs == [] then [] else
      var front, last := descs[..|descs| - 1], descs[|descs| - 1];
      if Occurs(front, id) then FirstChildren(front, id) else if Id(last) == id then last.children else []
  }

  /** A repetition of this id brings children. */
  predicate Repeated(descs: seq<Descriptor>, id: string) {
    descs != [] &&
      var front, last := descs[..|descs| - 1], descs[|descs| - 1];
      Repeated(front, id) || (Occurs(front, id) && Id(last) == id && last.children != [])
  }

  lemma {:induction false} FoldSnoc(acc: seq<Descriptor>, descs: seq<Descriptor>, d: Descriptor)
    ensures Fold(acc, descs + [d]) == Absorb(Fold(acc, descs), d, 1)
    decreases |descs|
  {
    if descs == [] {
      assert descs + [d] == [d] && [d][1..] == [];
      assert Fold(Absorb(acc, d, 1), []) == Absorb(acc, d, 1);
    } else {
      assert (descs + [d])[0] == descs[0] && (descs + [d])[1..] == descs[1..] + [d];
      FoldSnoc(Absorb(acc, descs[0], |descs|), descs[1..], d);
    }
  }

  lemma MergeSnoc(descs: seq<Descriptor>, front: seq<Descriptor>, d: Descriptor)
    requires descs == front + [d]
    ensures Merge(descs) == Absorb(Merge(front), d, 1)
  {
    FoldSnoc([], front, d);
  }

  /** A list without repeated ids is its own merge. */
  lemma {:induction false} MergeUniqueIs(descs: seq<Descriptor>)
    requires Unique(descs)
    ensures Merge(descs) == descs
    decreases |descs|
  {
    if descs != [] {
      var front, d := descs[..|descs| - 1], descs[|descs| - 1];
      MergeUniqueIs(front);
      MergeSnoc(descs, front, d);
    }
  }

  /** Merging what is already merged with more is merging everything at once. */
  lemma {:induction false} MergeOnce(a: seq<Descriptor>, b: seq<Descriptor>)
    ensures Merge(Merge(a) + b) == Merge(a + b)
    decreases |b|
  {
    if b == [] {
      assert Merge(a) + b == Merge(a) && a + b == a;
      MergeUnique(a);
      MergeUniqueIs(Merge(a));
    } else {
      var front := b[..|b| - 1];
      MergeOnce(a, front);
      assert b == front + [b[|b| - 1]];
      MergeSnoc(Merge(a) + b, Merge(a) + front, b[|b| - 1]);
      MergeSnoc(a + b, a + front, b[|b| - 1]);
    }
  }

  /** Without such a repetition all children are those of the first. */
  lemma {:induction false} NotRepeated(descs: seq<Descriptor>, id: string)
    requires !Repeated(descs, id)
    ensures ChildrenOf(descs, id) == FirstChildren(descs, id)
    ensures !Occurs(descs, id) ==> ChildrenOf(descs, id) == []
    decreases |descs|
  {
    if descs != [] {
      NotRepeated(descs[..|descs| - 1], id);
    }
  }

  /** The children an id ends up with. */
  function MergedChildren(descs: seq<Descriptor>, id: string): seq<Descriptor> {
    if Repeated(descs, id) then Merge(ChildrenOf(descs, id)) else FirstChildren(descs, id)
  }

  lemma MergedChildrenStep(descs: seq<Descriptor>, id: string)
    requires descs != []
    ensures var front, last := descs[..|descs| - 1], descs[|descs| - 1];
            MergedChildren(descs, id) ==
              if Id(last) != id then MergedChildren(front, id)
              else if !Occurs(front, id) then last.children
              else if last.children == [] then MergedChildren(front, id)
              else Merge(MergedChildren(front, id) + last.children)
  {
    var front, last := descs[..|descs| - 1], descs[|descs| - 1];
    var own := if Id(last) == id then last.children else [];
    assert own == [] ==> ChildrenOf(front, id) + own == ChildrenOf(front, id);
    if Repeated(front, id) {
      RepeatedOccurs(front, id);
      MergeOnce(ChildrenOf(front, id), own);
    } else {
      NotRepeated(front, id);
    }
  }

  lemma {:induction false} RepeatedOccurs(descs: seq<Descriptor>, id: string)
    requires Repeated(descs, id)
    ensures Occurs(descs, id)
    decreases |descs|
  {
    if Repeated(descs[..|descs| - 1], id) {
      RepeatedOccurs(descs[..|descs| - 1], id);
    }
  }

  /** Which entries a merge has, and with which children. */
  lemma {:induction false} MergedEntry(descs: seq<Descriptor>, id: string)
    ensures var r := Merge(descs);
            && (Find(r, id) < |r| <==> Occurs(descs, id))
            && (Find(r, id) < |r| ==> r[Find(r, id)].children == MergedChildren(descs, id))
    decreases |descs|
  {
    if descs != [] {
      var front, d := descs[..|descs| - 1], descs[|descs| - 1];
      MergedEntry(front, id);
      MergeSnoc(descs, front, d);
      MergedChildrenStep(descs, id);
      AbsorbFind(Merge(front), d, id);
    }
  }

  lemma FindIs(acc: seq<Descriptor>, id: string, i: nat)
    requires i <= |acc| && (i < |acc| ==> Id(acc[i]) == id) && forall j :: 0 <= j < i ==> Id(acc[j]) != id
    ensures Find(acc, id) == i
  {
  }

  lemma AbsorbFind(acc: seq<Descriptor>, d: Descriptor, id: string)
    ensures var r, i := Absorb(acc, d, 1), Find(acc, id);
            if Id(d) != id then
              (if i < |acc| then Find(r, id) == i < |r| && r[i] == acc[i] else Find(r, id) == |r|)
            else
              && Find(r, id) == i < |r|
              && r[i].children == if i == |acc| then d.children
                                  else if d.children == [] then acc[i].children
                                  else Merge(acc[i].children + d.children)
  {
    var r, i := Absorb(acc, d, 1), Find(acc, id);
    FindIs(r, id, if Id(d) != id && i == |acc| then |r| else i);
  }

  /* ---- Uniqueness at every depth ---- */

  predicate DeepUnique(descs: seq<Descriptor>) {
    Unique(descs) && forall i :: 0 <= i < |descs| ==> DeepUnique(descs[i].children)
  }

  lemma {:induction false} OccursAt(descs: seq<Descriptor>, i: nat)
    requires i < |descs|
    ensures Occurs(descs, Id(descs[i]))
    decreases |descs|
  {
    if i < |descs| - 1 {
      OccursAt(descs[..|descs| - 1], i);
    }
  }

  lemma {:induction false} OccursWhere(descs: seq<Descriptor>, id: string) returns (i: nat)
    requires Occurs(descs, id)
    ensures i < |descs| && Id(descs[i]) == id
    decreases |descs|
  {
    if Id(descs[|descs| - 1]) == id {
      i := |descs| - 1;
    } else {
      i := OccursWhere(descs[..|descs| - 1], id);
    }
  }

  lemma {:induction false} ChildrenSmaller(descs: seq<Descriptor>, id: string)
    ensures Size(ChildrenOf(descs, id)) <= Size(descs)
    ensures Occurs(descs, id) ==> Size(ChildrenOf(descs, id)) < Size(descs)
    decreases |descs|
  {
    if descs != [] {
      var front, last := descs[..|descs| - 1], descs[|descs| - 1];
      ChildrenSmaller(front, id);
      assert descs == front + [last];
      SizeConcat(front, [last]);
      assert Size([last]) == 1 + Size(last.children) + Size([last][1..]);
      SizeConcat(ChildrenOf(front, id), if Id(last) == id then last.children else []);
    }
  }

  /** Wherever siblings repeat an id, some repetition brings children, or the first one's children
      are free of repetitions already. */
  ghost predicate Resolvable(descs: seq<Descriptor>)
    decreases Size(descs)
  {
    forall i :: 0 <= i < |descs| ==>
      (OccursAt(descs, i); ChildrenSmaller(descs, Id(descs[i]));
       if Repeated(descs, Id(descs[i])) then Resolvable(ChildrenOf(descs, Id(descs[i])))
       else DeepUnique(FirstChildren(descs, Id(descs[i]))))
  }

  /** A merged tree has no repeated siblings at any depth exactly when the input is resolvable: the
      code merges children only when a repetition brings some, and leaves the others as they came. */
  lemma {:induction false} DeepUniqueIff(descs: seq<Descriptor>)
    ensures DeepUnique(Merge(descs)) <==> Resolvable(descs)
    decreases Size(descs)
  {
    var r := Merge(descs);
    MergeUnique(descs);
    forall i | 0 <= i < |descs|
      ensures var id := Id(descs[i]);
              && Find(r, id) < |r| && r[Find(r, id)].children == MergedChildren(descs, id)
              && (Repeated(descs, id) ==>
                    (DeepUnique(MergedChildren(descs, id)) <==> Resolvable(ChildrenOf(descs, id))))
    {
      OccursAt(descs, i);
      ChildrenSmaller(descs, Id(descs[i]));
      MergedEntry(descs, Id(descs[i]));
      DeepUniqueIff(ChildrenOf(descs, Id(descs[i])));
    }
    forall k | 0 <= k < |r|
      ensures exists i :: 0 <= i < |descs| && Id(descs[i]) == Id(r[k]) && Find(r, Id(descs[i])) == k
    {
      FindIs(r, Id(r[k]), k);
      MergedEntry(descs, Id(r[k]));
      var i := OccursWhere(descs, Id(r[k]));
    }
  }

  lemma {:induction false} ChildrenComeFrom(descs: seq<Descriptor>, id: string, k: nat) returns (i: nat, j: nat)
    requires k < |ChildrenOf(descs, id)|
    ensures i < |descs| && j < |descs[i].children| && ChildrenOf(descs, id)[k] == descs[i].children[j]
    decreases |descs|
  {
    var front := descs[..|descs| - 1];
    if k < |ChildrenOf(front, id)| {
      i, j := ChildrenComeFrom(front, id, k);
    } else {
      i, j := |descs| - 1, k - |ChildrenOf(front, id)|;
    }
  }

  lemma {:induction false} FirstChildrenFrom(descs: seq<Descriptor>, id: string) returns (i: nat)
    requires Occurs(descs, id)
    ensures i < |descs| && FirstChildren(descs, id) == descs[i].children
    decreases |descs|
  {
    if Occurs(descs[..|descs| - 1], id) {
      i := FirstChildrenFrom(descs[..|descs| - 1], id);
    } else {
      i := |descs| - 1;
    }
  }

  /** Trees that are each free of repetitions merge to one that is. */
  lemma {:induction false} CleanTreesResolve(descs: seq<Descriptor>)
    requires forall i :: 0 <= i < |descs| ==> DeepUnique(descs[i].children)
    ensures Resolvable(descs)
    decreases Size(descs)
  {
    forall i | 0 <= i < |descs|
      ensures var id := Id(descs[i]);
              if Repeated(descs, id) then Resolvable(ChildrenOf(descs, id)) else DeepUnique(FirstChildren(descs, id))
    {
      var id := Id(descs[i]);
      OccursAt(descs, i);
      ChildrenSmaller(descs, id);
      if Repeated(descs, id) {
        forall k | 0 <= k < |ChildrenOf(descs, id)| ensures DeepUnique(ChildrenOf(descs, id)[k].children) {
          var n, j := ChildrenComeFrom(descs, id, k);
        }
        CleanTreesResolve(ChildrenOf(descs, id));
      } else {
        var n := FirstChildrenFrom(descs, id);
      }
    }
  }

  /** A lone descriptor keeps repeated children, as it has no repetition to merge with. */
  lemma LoneChildrenStay(d: Descriptor)
    ensures Merge([d]) == [d]
    ensures DeepUnique(Merge([d])) <==> DeepUnique(d.children)
  {
    MergeUniqueIs([d]);
  }

  lemma RepeatedChildrenCanStay(c: Descriptor)
    ensures var d := Descriptor("k", "v", None, false, false, [c, c]); Merge([d]) == [d] && !DeepUnique(Merge([d]))
  {
    var d := Descriptor("k", "v", None, false, false, [c, c]);
    LoneChildrenStay(d);
    assert Id(d.children[0]) == Id(d.children[1]);
  }

  /** The position map: every entry is found under its own id, and nothing else is. */
  ghost predicate Indexed(r: seq<Descriptor>, byKey: map<string, nat>) {
    && (forall k :: k in byKey ==> byKey[k] < |r| && Id(r[byKey[k]]) == k)
    && (forall j :: 0 <= j < |r| ==> Id(r[j]) in byKey && byKey[Id(r[j])] == j)
  }

  lemma IndexedFind(r: seq<Descriptor>, byKey: map<string, nat>, key: string)
    requires Indexed(r, byKey)
    ensures Find(r, key) == if key in byKey then byKey[key] else |r|
  {
  }

  lemma AbsorbIs(r: seq<Descriptor>, byKey: map<string, nat>, d: Descriptor, todo: nat)
    requires Indexed(r, byKey) && todo > 0
    ensures Id(d) !in byKey ==> Absorb(r, d, todo) == r + [d] && Indexed(r + [d], byKey[Id(d) := |r|])
    ensures Id(d) in byKey ==>
              var i := byKey[Id(d)];
              && Absorb(r, d, todo)
                 == r[i := Combine(r[i], d,
                                   if d.children == [] then r[i].children else Merge(r[i].children + d.children))]
              && Indexed(Absorb(r, d, todo), byKey)
  {
    IndexedFind(r, byKey, Id(d));
  }

  /** The loop of the source: entries in insertion order, found through a map of positions. */
  method MergeDescriptors(descs: seq<Descriptor>) returns (r: seq<Descriptor>)
    ensures r == Merge(descs)
    decreases Size(descs), 1
  {
    var byKey: map<string, nat> := map[];
    r := [];
    for n := 0 to |descs|
      invariant Fold(r, descs[n..]) == Merge(descs)
      invariant Size(r) + Size(descs[n..]) <= Size(descs)
      invariant Indexed(r, byKey)
    {
      var d := descs[n];
      var key := d.key + "\0" + d.value;
      assert descs[n..][0] == d && descs[n..][1..] == descs[n + 1..];
      AbsorbIs(r, byKey, d, |descs[n..]|);
      ghost var next := Absorb(r, d, |descs[n..]|);
      if key !in byKey {
        r, byKey := r + [d], byKey[key := |r|];
      } else {
        var i := byKey[key];
        SizeSplit(r, i, r[i]);
        var e := MergeEntry(r[i], d);
        r := r[i := e];
      }
      assert r == next;
    }
  }

  method MergeEntry(e: Descriptor, d: Descriptor) returns (r: Descriptor)
    ensures r == Combine(e, d, if d.children == [] then e.children else Merge(e.children + d.children))
    decreases 1 + Size(e.children) + Size(d.children), 0
  {
    r := e;
    if |d.children| > 0 {
      SizeConcat(e.children, d.children);
      var children := MergeDescriptors(e.children + d.children);
      r := r.(children := children);
    }
    if d.limit.Some? && r.limit.None? {
      r := r.(limit := d.limit);
    }
    if d.quotaMode {
      r := r.(quotaMode := true);
    }
    if d.shadowMode {
      r := r.(shadowMode := true);
    }
  }
}
