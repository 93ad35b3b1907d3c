/** Values shared by every component: outcomes, portable paths, version vectors and the
    portable record exchanged between replicas. */
module Core {

  datatype Option<+T> = None | Some(value: T)

  datatype Result<+T, +E> = Ok(value: T) | Err(error: E)

  const U64_MAX: nat := 0xFFFF_FFFF_FFFF_FFFF

  /** A portable path, as the sequence of its components. */
  datatype WirePath = WirePath(components: seq<string>)

  /** A 32-byte digest, kept abstract as the number its bytes spell. */
  type Hash = nat

  type ReplicaId = nat

  /** Two directories overlap when one is an ancestor of, or equal to, the other. */
  predicate Overlaps(a: seq<string>, b: seq<string>) {
    a <= b || b <= a
  }

  function Max(a: nat, b: nat): nat {
    if a < b then b else a
  }

  /** `p` is `q` or lies below it. */
  predicate Within(q: WirePath, p: WirePath) {
    q.components <= p.components
  }

  ghost predicate Distinct<T>(s: seq<T>) {
    forall i, j :: 0 <= i < j < |s| ==> s[i] != s[j]
  }

  /** A distinct sequence inside a set is no longer than the set is big, and as long if it lists it. */
  lemma {:induction false} DistinctSize<T>(s: seq<T>, t: set<T>)
    requires Distinct(s) && forall i :: 0 <= i < |s| ==> s[i] in t
    ensures |s| <= |t|
    ensures (forall x :: x in t ==> x in s) ==> |s| == |t|
  {
    if s == [] {
      assert (forall x :: x in t ==> x in s) ==> t == {};
    } else {
      var n := |s| - 1;
      forall x | x in t - {s[n]} && x in s ensures x in s[..n] {}
      DistinctSize(s[..n], t - {s[n]});
    }
  }

  lemma SubsetSize<T>(a: set<T>, b: set<T>)
    requires a <= b
    ensures |a| <= |b| && (a != b ==> |a| < |b|)
  {
    assert b == a + (b - a);
  }

  // ---------------------------------------------------------------- version vectors

  /** Per-replica logical counters. A missing entry and an explicit zero mean the same. */
  type VersionVector = map<ReplicaId, nat>

  datatype CausalRelation = Equal | Before | After | Concurrent

  function Get(v: VersionVector, replica: ReplicaId): nat {
    if replica in v then v[replica] else 0
  }

  /** Records a counter without letting causal knowledge move backwards. */
  function Observe(v: VersionVector, replica: ReplicaId, counter: nat): (r: VersionVector)
    ensures forall x :: Get(r, x) == if x == replica then Max(Get(v, x), counter) else Get(v, x)
  {
    v[replica := Max(Get(v, replica), counter)]
  }

  /** Everything `a` knows, `b` knows. */
  ghost predicate AtMost(a: VersionVector, b: VersionVector) {
    forall x :: Get(a, x) <= Get(b, x)
  }

  /** The causal order, stated over all replicas rather than over the stored entries. */
  ghost function Relation(a: VersionVector, b: VersionVector): CausalRelation {
    if AtMost(a, b) && AtMost(b, a) then Equal
    else if AtMost(a, b) then Before
    else if AtMost(b, a) then After
    else Concurrent
  }

  /** `VersionVector::relation`: the loop over stored entries decides the pointwise order. */
  method ComputeRelation(a: VersionVector, b: VersionVector) returns (r: CausalRelation)
    ensures r == Relation(a, b)
  {
    var todo := a.Keys + b.Keys;
    var less, greater := false, false;
    while todo != {}
      invariant todo <= a.Keys + b.Keys
      invariant less <==> exists x :: x in a.Keys + b.Keys - todo && Get(a, x) < Get(b, x)
      invariant greater <==> exists x :: x in a.Keys + b.Keys - todo && Get(a, x) > Get(b, x)
    {
      var replica :| replica in todo;
      var left, right := Get(a, replica), Get(b, replica);
      less := less || left < right;
      greater := greater || left > right;
      todo := todo - {replica};
    }
    assert less <==> !AtMost(b, a) by {
      if x :| Get(a, x) < Get(b, x) { assert x in b.Keys; }
    }
    assert greater <==> !AtMost(a, b) by {
      if x :| Get(a, x) > Get(b, x) { assert x in a.Keys; }
    }
    r := match (less, greater)
      case (false, false) => Equal
      case (true, false) => Before
      case (false, true) => After
      case (true, true) => Concurrent;
  }

  /** `VersionVector::merge`: the result is the least vector that knows both inputs. */
  method Merge(v: VersionVector, other: VersionVector) returns (r: VersionVector)
    ensures forall x :: Get(r, x) == Max(Get(v, x), Get(other, x))
    ensures AtMost(v, r) && AtMost(other, r)
    ensures forall u: VersionVector :: AtMost(v, u) && AtMost(other, u) ==> AtMost(r, u)
  {
    r := v;
    var todo := other.Keys;
    while todo != {}
      invariant todo <= other.Keys
      invariant forall x :: Get(r, x) ==
                            if x in other.Keys - todo then Max(Get(v, x), Get(other, x)) else Get(v, x)
    {
      var replica :| replica in todo;
      r := r[replica := Max(Get(r, replica), other[replica])];
      todo := todo - {replica};
    }
  }

  // ---------------------------------------------------------------- portable records

  datatype Kind = File | Directory | Symlink | Other

  /** Causal, portable state of one path. */
  datatype SyncRecord = SyncRecord(
    path: WirePath,
    kind: Kind,
    size: nat,
    contentHash: Option<Hash>,
    readonly: bool,
    version: VersionVector,
    tombstone: bool)
  {
    /** `SyncRecord::validate`, with the schema number left implicit. */
    predicate Valid() {
      tombstone
      || (if kind == File then contentHash.Some? else size == 0 && contentHash.None?)
    }

    /** Equality of state, ignoring causal history. */
    predicate SameState(other: SyncRecord) {
      && path == other.path
      && kind == other.kind
      && size == other.size
      && contentHash == other.contentHash
      && readonly == other.readonly
      && tombstone == other.tombstone
    }
  }
}
