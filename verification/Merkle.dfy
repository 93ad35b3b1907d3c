/** The Merkle tree over the records of one replica: the subtree at a prefix, its digest and its
    record count, and the proof that digest and count identify the subtree. */
module Merkle {
  import opened Core

  /** Records by path, as a tree keeps them. */
  type Records = map<WirePath, SyncRecord>

  const ROOT := WirePath([])

  /** One component of a portable path. */
  predicate ValidName(name: string) {
    name != "" && '/' !in name
  }

  predicate ValidPath(p: WirePath) {
    p.components != [] && forall i :: 0 <= i < |p.components| ==> ValidName(p.components[i])
  }

  /** What `from_records` accepts, keyed by path. */
  ghost predicate WellKeyed(m: Records) {
    forall p :: p in m ==> ValidPath(p) && m[p].path == p && m[p].Valid()
  }

  function Kid(q: WirePath, name: string): WirePath {
    WirePath(q.components + [name])
  }

  /** The ancestor of `p` with `k` components. */
  function Cut(p: WirePath, k: nat): WirePath
    requires k <= |p.components|
  {
    WirePath(p.components[..k])
  }

  function KeysUnder(m: Records, q: WirePath): set<WirePath> {
    set p | p in m && Within(q, p)
  }

  /** `records_under`: the part of the tree at and below a prefix. */
  function Under(m: Records, q: WirePath): Records {
    map p | p in KeysUnder(m, q) :: m[p]
  }

  function KidNames(m: Records, q: WirePath): set<string> {
    set p | p in KeysUnder(m, q) && |p.components| > |q.components| :: p.components[|q.components|]
  }

  /** The nodes at and below a prefix. */
  function NodesUnder(m: Records, q: WirePath): set<WirePath> {
    set p, k | p in KeysUnder(m, q) && |q.components| <= k <= |p.components| :: Cut(p, k)
  }

  /** The root always exists; any other node exists when it leads to a record. */
  predicate HasNode(m: Records, q: WirePath) {
    q == ROOT || KeysUnder(m, q) != {}
  }

  // ---------------------------------------------------------------- digests

  datatype Child = Child(hash: Hash, count: nat)

  /** The digest primitives: of a record, and of a node given its record and its children. */
  datatype Hasher = Hasher(
    record: SyncRecord -> Hash,
    node: (Option<Hash>, map<string, Child>) -> Hash)

  ghost predicate CollisionFree(h: Hasher) {
    && (forall a, b :: h.record(a) == h.record(b) ==> a == b)
    && (forall r1, c1, r2, c2 :: h.node(r1, c1) == h.node(r2, c2) ==> r1 == r2 && c1 == c2)
  }

  lemma KidIsDeeper(m: Records, q: WirePath, name: string)
    requires name in KidNames(m, q)
    ensures NodesUnder(m, Kid(q, name)) < NodesUnder(m, q)
    ensures |NodesUnder(m, Kid(q, name))| < |NodesUnder(m, q)|
  {
    var child := Kid(q, name);
    var n := |q.components|;
    forall x | x in NodesUnder(m, child) ensures x in NodesUnder(m, q) {
      var p, k :| p in KeysUnder(m, child) && |child.components| <= k <= |p.components| && x == Cut(p, k);
      assert q.components <= child.components;
    }
    var p :| p in KeysUnder(m, q) && |p.components| > n && p.components[n] == name;
    assert Cut(p, n) == q;
    assert q in NodesUnder(m, q);
    assert q !in NodesUnder(m, child);
    SubsetSize(NodesUnder(m, child), NodesUnder(m, q));
  }

  function NodeRecord(h: Hasher, m: Records, q: WirePath): Option<Hash> {
    if q in m then Some(h.record(m[q])) else None
  }

  /** The subtree digest that `finalize` computes bottom-up. */
  function Digest(h: Hasher, m: Records, q: WirePath): Hash
    decreases |NodesUnder(m, q)|
  {
    h.node(NodeRecord(h, m, q),
           map name | name in KidNames(m, q) ::
             KidIsDeeper(m, q, name); Child(Digest(h, m, Kid(q, name)), |KeysUnder(m, Kid(q, name))|))
  }

  function Children(h: Hasher, m: Records, q: WirePath): map<string, Child> {
    map name | name in KidNames(m, q) :: Child(Digest(h, m, Kid(q, name)), |KeysUnder(m, Kid(q, name))|)
  }

  lemma DigestUnfolds(h: Hasher, m: Records, q: WirePath)
    ensures Digest(h, m, q) == h.node(NodeRecord(h, m, q), Children(h, m, q))
  {
    assert (map name | name in KidNames(m, q) ::
        KidIsDeeper(m, q, name); Child(Digest(h, m, Kid(q, name)), |KeysUnder(m, Kid(q, name))|)) == Children(h, m, q);
  }

  /** A path below `q` is `q` itself or below exactly one child of `q`. */
  lemma WhichKid(m: Records, q: WirePath, p: WirePath)
    requires p in KeysUnder(m, q)
    ensures p == q || (|p.components| > |q.components|
                       && p.components[|q.components|] in KidNames(m, q)
                       && p in KeysUnder(m, Kid(q, p.components[|q.components|])))
  {
    if |p.components| == |q.components| {
      assert p.components == q.components;
    } else {
      var name := p.components[|q.components|];
      assert Kid(q, name).components == p.components[..|q.components| + 1];
    }
  }

  /** Equal digests at a prefix mean equal subtrees there: every record with its whole history. */
  lemma {:induction false} DigestIdentifies(h: Hasher, a: Records, b: Records, q: WirePath)
    requires CollisionFree(h)
    requires Digest(h, a, q) == Digest(h, b, q)
    ensures Under(a, q) == Under(b, q)
    decreases |NodesUnder(a, q)|
  {
    DigestUnfolds(h, a, q);
    DigestUnfolds(h, b, q);
    assert NodeRecord(h, a, q) == NodeRecord(h, b, q) && Children(h, a, q) == Children(h, b, q);
    forall p | p in KeysUnder(a, q) || p in KeysUnder(b, q)
      ensures p in Under(a, q) && p in Under(b, q) && a[p] == b[p]
    {
      if p != q {
        if p in KeysUnder(a, q) { WhichKid(a, q, p); } else { WhichKid(b, q, p); }
        var name := p.components[|q.components|];
        assert name in Children(h, a, q) && name in Children(h, b, q);
        KidIsDeeper(a, q, name);
        DigestIdentifies(h, a, b, Kid(q, name));
        assert p in Under(a, Kid(q, name)) && p in Under(b, Kid(q, name));
        assert Under(a, Kid(q, name))[p] == Under(b, Kid(q, name))[p];
        assert Within(q, p);
      }
    }
  }

  /** The digest depends on nothing but the subtree. */
  lemma {:induction false} DigestIsLocal(h: Hasher, a: Records, b: Records, q: WirePath)
    requires Under(a, q) == Under(b, q)
    ensures Digest(h, a, q) == Digest(h, b, q) && KeysUnder(a, q) == KeysUnder(b, q)
    decreases |NodesUnder(a, q)|
  {
    assert KeysUnder(a, q) == Under(a, q).Keys;
    assert KeysUnder(b, q) == Under(b, q).Keys;
    assert KidNames(a, q) == KidNames(b, q);
    forall name | name in KidNames(a, q)
      ensures Children(h, a, q)[name] == Children(h, b, q)[name]
    {
      UnderNarrows(a, b, q, Kid(q, name));
      KidIsDeeper(a, q, name);
      DigestIsLocal(h, a, b, Kid(q, name));
    }
    assert Children(h, a, q) == Children(h, b, q);
    if q in KeysUnder(a, q) { assert Under(a, q)[q] == Under(b, q)[q]; }
    assert q in a <==> q in b by { assert q in a ==> q in KeysUnder(a, q); assert q in b ==> q in KeysUnder(b, q); }
    DigestUnfolds(h, a, q);
    DigestUnfolds(h, b, q);
  }

  /** Equal subtrees have equal subtrees of their own. */
  lemma UnderNarrows(a: Records, b: Records, q: WirePath, deeper: WirePath)
    requires Under(a, q) == Under(b, q) && Within(q, deeper)
    ensures Under(a, deeper) == Under(b, deeper)
  {
    forall p | p in KeysUnder(a, deeper) || p in KeysUnder(b, deeper)
      ensures p in Under(a, deeper) && p in Under(b, deeper) && a[p] == b[p]
    {
      assert Within(q, p);
      assert p in Under(a, q) || p in Under(b, q);
      assert p in Under(a, q) && p in Under(b, q) && Under(a, q)[p] == Under(b, q)[p];
    }
  }

  lemma UnderRoot(m: Records)
    ensures Under(m, ROOT) == m && KeysUnder(m, ROOT) == m.Keys
  {
    assert forall p :: p in m ==> Within(ROOT, p);
  }

  /** Two trees agree everywhere exactly when their root digests agree. */
  lemma RootDigestIdentifies(h: Hasher, a: Records, b: Records)
    requires CollisionFree(h)
    ensures Digest(h, a, ROOT) == Digest(h, b, ROOT) <==> a == b
  {
    UnderRoot(a);
    UnderRoot(b);
    if Digest(h, a, ROOT) == Digest(h, b, ROOT) { DigestIdentifies(h, a, b, ROOT); }
  }

  // ---------------------------------------------------------------- comparing two trees

  function Flatten(parts: map<string, set<WirePath>>): set<WirePath> {
    set name, p | name in parts && p in parts[name] :: p
  }

  /** `diff_nodes`: descends only where digest or count differ; a child present on one side alone
      contributes all its paths. */
  function DifferentPaths(h: Hasher, a: Records, b: Records, q: WirePath): set<WirePath>
    decreases |NodesUnder(a, q)|
  {
    if Digest(h, a, q) == Digest(h, b, q) && |KeysUnder(a, q)| == |KeysUnder(b, q)| then {}
    else
      (if NodeRecord(h, a, q) != NodeRecord(h, b, q) && q != ROOT then {q} else {})
      + Flatten(map name | name in KidNames(a, q) + KidNames(b, q) ::
                  if name !in KidNames(b, q) then KeysUnder(a, Kid(q, name))
                  else if name !in KidNames(a, q) then KeysUnder(b, Kid(q, name))
                  else KidIsDeeper(a, q, name); DifferentPaths(h, a, b, Kid(q, name)))
  }

  predicate Differs(a: Records, b: Records, p: WirePath) {
    (p in a) != (p in b) || (p in a && a[p] != b[p])
  }

  /** What the child `name` of `q` contributes. */
  function KidDiff(h: Hasher, a: Records, b: Records, q: WirePath, name: string): set<WirePath> {
    if name !in KidNames(b, q) then KeysUnder(a, Kid(q, name))
    else if name !in KidNames(a, q) then KeysUnder(b, Kid(q, name))
    else DifferentPaths(h, a, b, Kid(q, name))
  }

  lemma DiffUnfolds(h: Hasher, a: Records, b: Records, q: WirePath)
    requires !(Digest(h, a, q) == Digest(h, b, q) && |KeysUnder(a, q)| == |KeysUnder(b, q)|)
    ensures DifferentPaths(h, a, b, q) ==
            (if NodeRecord(h, a, q) != NodeRecord(h, b, q) && q != ROOT then {q} else {})
            + Flatten(map name | name in KidNames(a, q) + KidNames(b, q) :: KidDiff(h, a, b, q, name))
  {
    hide Digest, KeysUnder, KidNames, NodesUnder, NodeRecord, Flatten;
    assert (map name | name in KidNames(a, q) + KidNames(b, q) ::
        if name !in KidNames(b, q) then KeysUnder(a, Kid(q, name))
        else if name !in KidNames(a, q) then KeysUnder(b, Kid(q, name))
        else KidIsDeeper(a, q, name); DifferentPaths(h, a, b, Kid(q, name)))
      == (map name | name in KidNames(a, q) + KidNames(b, q) :: KidDiff(h, a, b, q, name));
  }

  lemma KidOfPath(m: Records, q: WirePath, name: string, p: WirePath)
    requires p in m && Within(Kid(q, name), p)
    ensures Within(q, p) && name in KidNames(m, q) && p != q && p.components[|q.components|] == name
  {
    assert q.components <= Kid(q, name).components;
    assert p in KeysUnder(m, q);
  }

  /** The shortcut through equal digests loses nothing: the paths found below a node are exactly
      those at which the two trees hold different records, or only one holds a record. */
  lemma {:induction false} DiffIsExact(h: Hasher, a: Records, b: Records, q: WirePath)
    requires CollisionFree(h) && ROOT !in a && ROOT !in b
    ensures forall p :: p in DifferentPaths(h, a, b, q) <==> Within(q, p) && Differs(a, b, p)
    decreases |NodesUnder(a, q)|
  {
    if Digest(h, a, q) == Digest(h, b, q) && |KeysUnder(a, q)| == |KeysUnder(b, q)| {
      DigestIdentifies(h, a, b, q);
      forall p | Within(q, p) ensures !Differs(a, b, p) {
        assert p in a ==> p in Under(a, q) && p in Under(b, q) && Under(b, q)[p] == a[p];
        assert p in b ==> p in Under(b, q) && p in Under(a, q);
      }
    } else {
      forall name, p | name in KidNames(a, q) + KidNames(b, q)
        ensures KidExact(h, a, b, q, name, p)
      {
        if name in KidNames(a, q) && name in KidNames(b, q) {
          KidIsDeeper(a, q, name);
          DiffIsExact(h, a, b, Kid(q, name));
        } else {
          LoneKid(h, a, b, q, name, p);
        }
      }
      forall p ensures p in DifferentPaths(h, a, b, q) <==> Within(q, p) && Differs(a, b, p) {
        DiffAt(h, a, b, q, p);
      }
    }
  }

  predicate KidExact(h: Hasher, a: Records, b: Records, q: WirePath, name: string, p: WirePath) {
    p in KidDiff(h, a, b, q, name) <==> Within(Kid(q, name), p) && Differs(a, b, p)
  }

  /** A child that only one tree has differs in all its paths. */
  lemma LoneKid(h: Hasher, a: Records, b: Records, q: WirePath, name: string, p: WirePath)
    requires (name in KidNames(a, q)) != (name in KidNames(b, q))
    ensures KidExact(h, a, b, q, name, p)
  {
    if Within(Kid(q, name), p) {
      if p in a { KidOfPath(a, q, name, p); }
      if p in b { KidOfPath(b, q, name, p); }
    }
  }

  /** One path, once the children of the node are known to be compared exactly. */
  lemma DiffAt(h: Hasher, a: Records, b: Records, q: WirePath, p: WirePath)
    requires CollisionFree(h) && ROOT !in a && ROOT !in b
    requires !(Digest(h, a, q) == Digest(h, b, q) && |KeysUnder(a, q)| == |KeysUnder(b, q)|)
    requires forall name | name in KidNames(a, q) + KidNames(b, q) :: KidExact(h, a, b, q, name, p)
    ensures p in DifferentPaths(h, a, b, q) <==> Within(q, p) && Differs(a, b, p)
  {
    hide KidDiff, DifferentPaths, Digest, KidNames, KeysUnder, Differs;
    DiffUnfolds(h, a, b, q);
    DiffHere(h, a, b, q);
    var parts := map name | name in KidNames(a, q) + KidNames(b, q) :: KidDiff(h, a, b, q, name);
    if Within(q, p) && Differs(a, b, p) && p != q {
      DiffBelow(a, b, q, p);
      assert KidExact(h, a, b, q, p.components[|q.components|], p);
      assert p in parts[p.components[|q.components|]];
    }
    if p in Flatten(parts) {
      var name :| name in parts && p in parts[name];
      assert KidExact(h, a, b, q, name, p);
      assert Within(Kid(q, name), p) && Differs(a, b, p);
      assert Kid(q, name).components[..|q.components|] == q.components;
      assert Within(q, p);
    }
    if Within(q, p) && Differs(a, b, p) && p == q {
      assert p in DifferentPaths(h, a, b, q);
    }
  }

  lemma DiffHere(h: Hasher, a: Records, b: Records, q: WirePath)
    requires CollisionFree(h) && ROOT !in a && ROOT !in b
    ensures NodeRecord(h, a, q) != NodeRecord(h, b, q) && q != ROOT <==> Differs(a, b, q)
  {
  }

  lemma DiffBelow(a: Records, b: Records, q: WirePath, p: WirePath)
    requires Within(q, p) && p != q && Differs(a, b, p)
    ensures |p.components| > |q.components|
    ensures p.components[|q.components|] in KidNames(a, q) + KidNames(b, q)
    ensures Within(Kid(q, p.components[|q.components|]), p)
  {
    if p in a { WhichKid(a, q, p); } else { WhichKid(b, q, p); }
  }
}
