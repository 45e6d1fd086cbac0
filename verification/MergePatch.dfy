/** JSON documents and merge patches (section 2 of RFC 7386). */
module MergePatch {
  import opened Prelude

  /** The keys the operator spells out, and every other string: `Other` never holds a
      name that one of the constructors stands for. */
  datatype Key =
    | Spec | Replicas | PodAntiAffinity | ClusterRef | Partitions | ReplicationFactor
    | Retention | RetentionMs | RetentionBytes | CleanupPolicy
    | Compression | Type
    | Config | MinInsyncReplicas | MaxMessageBytes | SegmentBytes | IndexIntervalBytes
    | FlushIntervalMs | FlushMessages | Custom
    | Topic | PartitionCountSnake | PartitionCountCamel | ReplicationFactorSnake
    | Other(name: string)

  type Path = seq<Key>

  datatype Json =
    | Null
    | Bool(flag: bool)
    | Number(n: int)
    | Fraction(r: real)
    | String(s: string)
    | Array(items: seq<Json>)
    | Object(members: map<Key, Json>)

  function Members(doc: Json): map<Key, Json> {
    if doc.Object? then doc.members else map[]
  }

  function Member(doc: Json, k: Key): Option<Json> {
    if doc.Object? && k in doc.members then Some(doc.members[k]) else None
  }

  /** `null` in a patch removes a member, an object patches member by member, and
      anything else replaces the target. */
  function Merge(target: Json, patch: Json): Json
    decreases patch
  {
    if !patch.Object? then patch
    else
      var base := Members(target);
      Object(map k | k in base.Keys + patch.members.Keys && !(k in patch.members && patch.members[k].Null?) ::
               if k in patch.members
               then Merge(if k in base then base[k] else Null, patch.members[k])
               else base[k])
  }

  function MergeAll(target: Json, patches: seq<Json>): Json
    decreases |patches|
  {
    if patches == [] then target else MergeAll(Merge(target, patches[0]), patches[1..])
  }

  /** One member of a merged document. */
  lemma MergedMember(target: Json, patch: Json, k: Key)
    requires patch.Object?
    ensures Merge(target, patch).Object?
    ensures Member(Merge(target, patch), k)
         == if k !in patch.members then Member(target, k)
            else if patch.members[k].Null? then None
            else Some(Merge(Member(target, k).GetOr(Null), patch.members[k]))
  {
  }

  lemma SameMembers(a: Json, b: Json)
    requires a.Object? && b.Object?
    requires forall k: Key :: Member(a, k) == Member(b, k)
    ensures a == b
  {
    forall k: Key
      ensures (k in a.members) == (k in b.members)
      ensures k in a.members ==> a.members[k] == b.members[k]
    {
      assert Member(a, k) == Member(b, k);
    }
    assert a.members == b.members;
  }

  /** Applying a patch a second time changes nothing, for every pair of documents. */
  lemma {:induction false} MergeIsIdempotent(target: Json, patch: Json)
    ensures Merge(Merge(target, patch), patch) == Merge(target, patch)
    decreases patch
  {
    if patch.Object? {
      var once := Merge(target, patch);
      forall k: Key
        ensures Member(Merge(once, patch), k) == Member(once, k)
      {
        MergedMember(target, patch, k);
        MergedMember(once, patch, k);
        if k in patch.members && !patch.members[k].Null? {
          MergeIsIdempotent(Member(target, k).GetOr(Null), patch.members[k]);
        }
      }
      SameMembers(Merge(once, patch), once);
    }
  }

  // ---------------------------------------------------------------------
  // When two patches commute
  // ---------------------------------------------------------------------

  /** Two patches agree: they are the same, or both are objects and agree on every
      member they share. */
  predicate Agree(p: Json, q: Json)
    decreases p
  {
    || p == q
    || (p.Object? && q.Object? && forall k | k in p.members && k in q.members :: Agree(p.members[k], q.members[k]))
  }

  lemma {:induction false} AgreeingPatchesCommute(target: Json, p: Json, q: Json)
    requires Agree(p, q)
    ensures Merge(Merge(target, p), q) == Merge(Merge(target, q), p)
    decreases p
  {
    if p != q {
      var pq, qp := Merge(Merge(target, p), q), Merge(Merge(target, q), p);
      forall k: Key
        ensures Member(pq, k) == Member(qp, k)
      {
        MergedMember(target, p, k);
        MergedMember(target, q, k);
        MergedMember(Merge(target, p), q, k);
        MergedMember(Merge(target, q), p, k);
        if k in p.members && k in q.members {
          assert Agree(p.members[k], q.members[k]);
          AgreeingPatchesCommute(Member(target, k).GetOr(Null), p.members[k], q.members[k]);
        }
      }
      SameMembers(pq, qp);
    }
  }

  /** Patches that disagree are told apart by some document. */
  lemma {:induction false} DisagreeingPatchesConflict(p: Json, q: Json) returns (target: Json)
    requires !Agree(p, q)
    ensures Merge(Merge(target, p), q) != Merge(Merge(target, q), p)
    decreases p
  {
    target := Null;
    if p.Object? && q.Object? {
      var k :| k in p.members && k in q.members && !Agree(p.members[k], q.members[k]);
      var inner := DisagreeingPatchesConflict(p.members[k], q.members[k]);
      target := Object(map[k := inner]);
      MergedMember(target, p, k);
      MergedMember(target, q, k);
      MergedMember(Merge(target, p), q, k);
      MergedMember(Merge(target, q), p, k);
    }
  }

  /** Order matters to no document exactly when the patches agree. */
  lemma CommutationIsAgreement(p: Json, q: Json)
    ensures Agree(p, q) <==> forall target: Json :: Merge(Merge(target, p), q) == Merge(Merge(target, q), p)
  {
    if Agree(p, q) {
      forall target: Json
        ensures Merge(Merge(target, p), q) == Merge(Merge(target, q), p)
      {
        AgreeingPatchesCommute(target, p, q);
      }
    } else {
      var _ := DisagreeingPatchesConflict(p, q);
    }
  }

  predicate AllAgree(patches: seq<Json>) {
    forall j, k | 0 <= j < k < |patches| :: Agree(patches[j], patches[k])
  }

  lemma {:induction false} AgreeIsSymmetric(p: Json, q: Json)
    requires Agree(p, q)
    ensures Agree(q, p)
    decreases p
  {
    if p != q {
      forall k | k in p.members && k in q.members
        ensures Agree(q.members[k], p.members[k])
      {
        AgreeIsSymmetric(p.members[k], q.members[k]);
      }
    }
  }

  lemma {:induction false} PullForward(target: Json, patches: seq<Json>, i: nat)
    requires i < |patches| && forall j | 0 <= j < i :: Agree(patches[j], patches[i])
    ensures MergeAll(target, patches) == MergeAll(target, [patches[i]] + patches[..i] + patches[i + 1..])
    decreases i
  {
    if i == 0 {
      assert [patches[0]] + patches[..0] + patches[1..] == patches;
    } else {
      var rest := patches[1..];
      PullForward(Merge(target, patches[0]), rest, i - 1);
      AgreeingPatchesCommute(target, patches[0], patches[i]);
      var left := [patches[i]] + patches[..i] + patches[i + 1..];
      assert left[1..] == patches[..i] + patches[i + 1..];
      assert left[1..][1..] == rest[..i - 1] + rest[i..];
      var right := [rest[i - 1]] + rest[..i - 1] + rest[i..];
      assert right[1..] == rest[..i - 1] + rest[i..];
    }
  }

  lemma AgreesWithFirst(ps: seq<Json>, q: Json)
    requires AllAgree(ps) && ps != [] && q in ps
    ensures Agree(q, ps[0])
  {
    var m :| 0 <= m < |ps| && ps[m] == q;
    if m > 0 {
      AgreeIsSymmetric(ps[0], ps[m]);
    }
  }

  lemma MultisetWithout<T>(s: seq<T>, i: nat)
    requires i < |s|
    ensures multiset(s[..i] + s[i + 1..]) == multiset(s) - multiset{s[i]}
  {
    assert s == s[..i] + [s[i]] + s[i + 1..];
  }

  lemma FindFirst<T>(ps: seq<T>, qs: seq<T>) returns (i: nat)
    requires ps != [] && multiset(ps) == multiset(qs)
    ensures i < |qs| && qs[i] == ps[0]
    ensures multiset(qs[..i] + qs[i + 1..]) == multiset(ps[1..])
  {
    assert ps[0] in multiset(qs);
    i :| 0 <= i < |qs| && qs[i] == ps[0];
    MultisetWithout(qs, i);
    MultisetWithout(ps, 0);
    assert ps[..0] + ps[1..] == ps[1..];
  }

  lemma SplitFirst(target: Json, p: Json, rest: seq<Json>)
    ensures MergeAll(target, [p] + rest) == MergeAll(Merge(target, p), rest)
  {
    assert ([p] + rest)[1..] == rest;
  }

  /** Patches that agree pairwise give one document in whatever order they are
      applied. */
  lemma {:induction false} AnyOrderGivesOneDocument(target: Json, ps: seq<Json>, qs: seq<Json>)
    requires AllAgree(ps) && multiset(ps) == multiset(qs)
    ensures MergeAll(target, ps) == MergeAll(target, qs)
    decreases |ps|
  {
    if ps == [] {
      assert |multiset(qs)| == |qs| == 0;
    } else {
      var i := FindFirst(ps, qs);
      forall j | 0 <= j < i
        ensures Agree(qs[j], qs[i])
      {
        assert qs[j] in multiset(ps);
        AgreesWithFirst(ps, qs[j]);
      }
      PullForward(target, qs, i);
      var rest := qs[..i] + qs[i + 1..];
      assert [qs[i]] + qs[..i] + qs[i + 1..] == [ps[0]] + rest;
      SplitFirst(target, ps[0], rest);
      AnyOrderGivesOneDocument(Merge(target, ps[0]), ps[1..], rest);
    }
  }

  // ---------------------------------------------------------------------
  // Patches that name one leaf
  // ---------------------------------------------------------------------

  function Lookup(doc: Json, path: Path): Option<Json> {
    if path == [] then Some(doc)
    else
      var m := Member(doc, path[0]);
      if m.None? then None else Lookup(m.value, path[1..])
  }

  /** The patch that writes `leaf` at `path`, or removes it when `leaf` is null. */
  function PatchAt(path: Path, leaf: Json): Json {
    if path == [] then leaf else Object(map[path[0] := PatchAt(path[1..], leaf)])
  }

  predicate IsPrefix(p: Path, q: Path) {
    p == [] || (q != [] && p[0] == q[0] && IsPrefix(p[1..], q[1..]))
  }

  /** Every block that encloses the end of the path is an object. */
  predicate BlocksAreObjects(doc: Json, path: Path) {
    path == [] || (doc.Object? && (|path| > 1 ==>
        path[0] in doc.members && BlocksAreObjects(doc.members[path[0]], path[1..])))
  }

  predicate Scalar(leaf: Json) {
    !leaf.Object? && !leaf.Array?
  }

  /** After the patch the leaf is what the patch says, on every document. */
  lemma {:induction false} PatchedLeaf(doc: Json, path: Path, leaf: Json)
    requires path != [] && Scalar(leaf)
    ensures Lookup(Merge(doc, PatchAt(path, leaf)), path) == if leaf.Null? then None else Some(leaf)
    decreases |path|
  {
    MergedMember(doc, PatchAt(path, leaf), path[0]);
    if |path| > 1 {
      PatchedLeaf(Member(doc, path[0]).GetOr(Null), path[1..], leaf);
    }
  }

  /** No path that neither leads to the leaf nor goes through it changes, on every
      document. */
  lemma {:induction false} PatchLeavesOthers(doc: Json, path: Path, leaf: Json, q: Path)
    requires path != [] && Scalar(leaf) && !IsPrefix(q, path) && !IsPrefix(path, q)
    ensures Lookup(Merge(doc, PatchAt(path, leaf)), q) == Lookup(doc, q)
    decreases |path|
  {
    MergedMember(doc, PatchAt(path, leaf), q[0]);
    if q[0] == path[0] && |path| > 1 {
      PatchLeavesOthers(Member(doc, q[0]).GetOr(Null), path[1..], leaf, q[1..]);
    }
  }

  /** Where the enclosing blocks are objects they stay objects and neither gain nor
      lose a member other than the leaf. */
  lemma {:induction false} PatchKeepsBlocks(doc: Json, path: Path, leaf: Json, q: Path)
    requires Scalar(leaf) && BlocksAreObjects(doc, path) && IsPrefix(q, path) && |q| < |path|
    ensures
      var before, after := Lookup(doc, q), Lookup(Merge(doc, PatchAt(path, leaf)), q);
      && before.Some? && after.Some? && before.value.Object? && after.value.Object?
      && forall k | k != path[|q|] || |q| + 1 < |path| :: k in before.value.members <==> k in after.value.members
    decreases |path|
  {
    if q == [] {
      forall k: Key
        ensures Member(doc, k).Some? && (k != path[0] || |path| > 1) ==>
            Member(Merge(doc, PatchAt(path, leaf)), k).Some?
        ensures Member(doc, k).None? && (k != path[0] || |path| > 1) ==>
            Member(Merge(doc, PatchAt(path, leaf)), k).None?
      {
        MergedMember(doc, PatchAt(path, leaf), k);
      }
      assert forall k: Key :: (k in doc.members) == Member(doc, k).Some?;
      assert forall k: Key ::
          (k in Merge(doc, PatchAt(path, leaf)).members) == Member(Merge(doc, PatchAt(path, leaf)), k).Some?;
    } else {
      MergedMember(doc, PatchAt(path, leaf), path[0]);
      PatchKeepsBlocks(doc.members[path[0]], path[1..], leaf, q[1..]);
    }
  }

  lemma {:induction false} LeafPatchesAgree(p: Path, x: Json, q: Path, y: Json)
    requires !IsPrefix(p, q) && !IsPrefix(q, p)
    ensures Agree(PatchAt(p, x), PatchAt(q, y))
  {
    if p[0] == q[0] {
      LeafPatchesAgree(p[1..], x, q[1..], y);
    }
  }
}
