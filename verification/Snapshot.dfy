/** Downloading a peer's snapshot: a breadth-first walk over its Merkle tree that reuses matching
    local subtrees. The peer is an arbitrary oracle; an honest peer is one particular kind. */
module Snapshot {
  import opened Core
  import opened Merkle

  /** Bounds both the nodes asked for and the records of one snapshot. */
  const LIMIT: nat := 1_000_000

  datatype ChildSummary = ChildSummary(name: string, hash: Hash, count: nat)

  datatype Summary = Summary(
    prefix: WirePath,
    hash: Hash,
    count: nat,
    record: Option<SyncRecord>,
    children: seq<ChildSummary>)

  datatype Reply = Node(summary: Option<Summary>) | Refused

  /** What the other side of the stream does: its answer to the n-th query, and whether it confirms
      the end of the walk. */
  datatype Peer = Peer(answer: (nat, WirePath) -> Reply, finishes: bool)

  datatype Error =
    | QueryLimit
    | PeerRefused
    | Disappeared
    | PrefixMismatch
    | Malformed
    | ChildDiffers
    | RepeatedPath
    | CountMismatch
    | RootMismatch

  datatype RemoteSnapshot = RemoteSnapshot(records: Records, rootHash: Hash, count: nat, queried: nat)

  // ---------------------------------------------------------------- summaries

  /** The order of component names: by code point, the shorter first. */
  predicate Precedes(a: string, b: string) {
    b != "" && (a == "" || a[0] < b[0] || (a[0] == b[0] && Precedes(a[1..], b[1..])))
  }

  lemma {:induction false} PrecedesIsStrict(a: string, b: string, c: string)
    ensures !Precedes(a, a)
    ensures Precedes(a, b) && Precedes(b, c) ==> Precedes(a, c)
  {
    if a != "" {
      PrecedesIsStrict(a[1..], if b == "" then "" else b[1..], if c == "" then "" else c[1..]);
    }
  }

  function Counts(children: seq<ChildSummary>): nat {
    if children == [] then 0 else Counts(children[..|children| - 1]) + children[|children| - 1].count
  }

  predicate Ordered(children: seq<ChildSummary>) {
    forall i :: 0 < i < |children| ==> Precedes(children[i - 1].name, children[i].name)
  }

  predicate ChildrenOk(children: seq<ChildSummary>) {
    && Ordered(children)
    && forall i :: 0 <= i < |children| ==> ValidName(children[i].name) && children[i].count > 0
  }

  function Own(record: Option<SyncRecord>): nat {
    if record.Some? then 1 else 0
  }

  /** A summary whose parts fit together. */
  predicate WellFormed(s: Summary) {
    && s.count <= LIMIT
    && (s.prefix != ROOT ==> ValidPath(s.prefix) && s.count > 0)
    && (s.record.Some? ==> s.record.value.Valid() && s.record.value.path == s.prefix && s.prefix != ROOT)
    && ChildrenOk(s.children)
    && s.count == Own(s.record) + Counts(s.children)
  }

  lemma {:induction false} CountsGrow(children: seq<ChildSummary>, k: nat)
    requires k <= |children|
    ensures Counts(children[..k]) <= Counts(children)
  {
    if k < |children| {
      CountsGrow(children[..|children| - 1], k);
      assert children[..|children| - 1][..k] == children[..k];
    } else {
      assert children[..k] == children;
    }
  }

  lemma NoChildren(children: seq<ChildSummary>)
    requires children == []
    ensures ChildrenOk(children) && Counts(children) == 0
  {
  }

  lemma OneMoreCount(children: seq<ChildSummary>, i: nat)
    requires i < |children|
    ensures Counts(children[..i + 1]) == Counts(children[..i]) + children[i].count <= Counts(children)
  {
    CountsGrow(children, i + 1);
    assert children[..i + 1][..i] == children[..i];
  }

  lemma OneMoreChild(children: seq<ChildSummary>, i: nat)
    requires i < |children| && ChildrenOk(children[..i])
    ensures ChildrenOk(children[..i + 1]) <==>
            && ValidName(children[i].name) && children[i].count > 0
            && (i == 0 || Precedes(children[i - 1].name, children[i].name))
    ensures ChildrenOk(children) ==> ChildrenOk(children[..i + 1])
  {
    hide Precedes, ValidName, Counts;
    var more, less := children[..i + 1], children[..i];
    assert more[i] == children[i];
    assert i > 0 ==> more[i - 1] == children[i - 1];
    assert forall k :: 0 <= k < i ==> more[k] == less[k];
  }

  /** `validate_snapshot_summary`: one pass over the children, with a checked running count. */
  method ValidateSummary(s: Summary) returns (ok: bool)
    ensures ok <==> WellFormed(s)
  {
    hide ChildrenOk, Counts, Precedes, ValidName;
    assert ChildrenOk(s.children[..0]) && Counts(s.children[..0]) == 0 by { NoChildren(s.children[..0]); }
    if s.count > LIMIT || (s.prefix != ROOT && (!ValidPath(s.prefix) || s.count == 0)) {
      return false;
    }
    if s.record.Some? && (!s.record.value.Valid() || s.record.value.path != s.prefix || s.prefix == ROOT) {
      return false;
    }
    var count := Own(s.record);
    var previous: Option<string> := None;
    for i := 0 to |s.children|
      invariant count == Own(s.record) + Counts(s.children[..i])
      invariant previous == if i == 0 then None else Some(s.children[i - 1].name)
      invariant ChildrenOk(s.children[..i])
    {
      var child := s.children[i];
      OneMoreChild(s.children, i);
      OneMoreCount(s.children, i);
      if !ValidName(child.name) || (previous.Some? && !Precedes(previous.value, child.name)) || child.count == 0 {
        return false;
      }
      if count + child.count > U64_MAX {
        return false;
      }
      count := count + child.count;
      previous := Some(child.name);
    }
    assert s.children[..|s.children|] == s.children;
    return count == s.count;
  }

  lemma {:induction false} CountsOfFew(children: seq<ChildSummary>)
    requires forall i :: 0 <= i < |children| ==> children[i].count > 0
    ensures Counts(children) >= |children|
    ensures forall i :: 0 <= i < |children| ==> children[i].count <= Counts(children)
  {
    if children != [] {
      var less := children[..|children| - 1];
      assert forall i :: 0 <= i < |less| ==> less[i] == children[i];
      CountsOfFew(less);
    }
  }

  /** What is refused: too many records; an empty node below the root; a record that is invalid or
      belongs elsewhere; a child that is empty, is not one plain component, or does not follow its
      neighbour in the order of code points; and counts that do not add up. */
  lemma RefusedSummaries(s: Summary, i: nat)
    requires WellFormed(s)
    ensures s.count <= 1_000_000 && (s.prefix.components != [] ==> s.count >= 1)
    ensures s.record.Some? ==> s.record.value.path == s.prefix && s.record.value.Valid() && s.prefix.components != []
    ensures i < |s.children| ==> s.children[i].count >= 1 && s.children[i].name != "" && '/' !in s.children[i].name
    ensures 0 < i < |s.children| ==> Precedes(s.children[i - 1].name, s.children[i].name)
    ensures s.record.None? && s.children == [] ==> s.count == 0
    ensures |s.children| <= s.count && (i < |s.children| ==> s.children[i].count <= s.count)
  {
    CountsOfFew(s.children);
  }

  /** The order of names is that of the first code points in which they differ. */
  lemma {:induction false} PrecedesExactly(a: string, b: string)
    ensures Precedes(a, b) <==>
            a < b || exists k :: 0 <= k < |a| && k < |b| && a[..k] == b[..k] && a[k] < b[k]
  {
    if a != "" && b != "" && a[0] == b[0] {
      PrecedesExactly(a[1..], b[1..]);
      PrecedesTail(a, b);
    } else if a != "" && b != "" {
      assert a[..0] == b[..0];
    }
  }

  lemma PrecedesTail(a: string, b: string)
    requires a != "" && b != "" && a[0] == b[0]
    ensures a < b <==> a[1..] < b[1..]
    ensures (exists k :: 0 <= k < |a| && k < |b| && a[..k] == b[..k] && a[k] < b[k]) <==>
            exists k :: 0 <= k < |a[1..]| && k < |b[1..]| && a[1..][..k] == b[1..][..k] && a[1..][k] < b[1..][k]
  {
    assert a == [a[0]] + a[1..] && b == [b[0]] + b[1..];
    if k :| 0 <= k < |a| && k < |b| && a[..k] == b[..k] && a[k] < b[k] {
      assert k > 0 && a[1..][..k - 1] == a[..k][1..] && b[1..][..k - 1] == b[..k][1..];
      assert a[1..][k - 1] < b[1..][k - 1];
    }
    if k :| 0 <= k < |a[1..]| && k < |b[1..]| && a[1..][..k] == b[1..][..k] && a[1..][k] < b[1..][k] {
      assert a[..k + 1] == [a[0]] + a[1..][..k] && b[..k + 1] == [b[0]] + b[1..][..k];
      assert a[k + 1] < b[k + 1];
    }
  }

  /** Ordered names are distinct names. */
  lemma {:induction false} OrderedApart(children: seq<ChildSummary>, i: nat, j: nat)
    requires Ordered(children) && i < j < |children|
    ensures Precedes(children[i].name, children[j].name)
    ensures children[i].name != children[j].name
    decreases j
  {
    if i < j - 1 {
      OrderedApart(children, i, j - 1);
    }
    PrecedesIsStrict(children[i].name, children[j - 1].name, children[j].name);
  }

  // ---------------------------------------------------------------- the frontier of the walk

  /** A prefix still to be asked for, with what its parent said about it. */
  datatype Pending = Pending(prefix: WirePath, expected: Option<Child>)

  /** Records still promised by the frontier; `total` is what the root promises. */
  function Promised(f: seq<Pending>, total: nat): nat {
    if f == [] then 0 else (if f[0].expected.Some? then f[0].expected.value.count else total) + Promised(f[1..], total)
  }

  lemma {:induction false} PromisedAppends(f: seq<Pending>, g: seq<Pending>, total: nat)
    ensures Promised(f + g, total) == Promised(f, total) + Promised(g, total)
  {
    if f == [] {
      assert f + g == g;
    } else {
      assert (f + g)[1..] == f[1..] + g;
      PromisedAppends(f[1..], g, total);
    }
  }

  /** No pending prefix lies within another. */
  ghost predicate Apart(f: seq<Pending>) {
    forall i, j :: 0 <= i < |f| && 0 <= j < |f| && i != j ==> !Within(f[i].prefix, f[j].prefix)
  }

  ghost predicate Clear(f: seq<Pending>, p: WirePath) {
    forall i :: 0 <= i < |f| ==> !Within(f[i].prefix, p)
  }

  /** What holds whatever the peer says: pending prefixes are incomparable, nothing collected or
      already asked for lies below one, and no record is lost or counted twice. */
  ghost predicate Sound(records: Records, asked: seq<WirePath>, f: seq<Pending>, total: nat) {
    && Apart(f)
    && (forall p :: p in records ==> Clear(f, p))
    && (forall i :: 0 <= i < |asked| ==> Clear(f, asked[i]))
    && (forall i, j :: 0 <= i < j < |asked| ==> asked[i] != asked[j])
    && |records| + Promised(f, total) == total
  }

  /** The pending entries for the children of a node. */
  function Kids(q: WirePath, children: seq<ChildSummary>): (r: seq<Pending>)
    ensures |r| == |children|
    ensures forall i :: 0 <= i < |r| ==>
      r[i] == Pending(Kid(q, children[i].name), Some(Child(children[i].hash, children[i].count)))
  {
    seq(|children|, i requires 0 <= i < |children| =>
      Pending(Kid(q, children[i].name), Some(Child(children[i].hash, children[i].count))))
  }

  lemma {:induction false} KidsPromise(q: WirePath, children: seq<ChildSummary>, total: nat)
    ensures Promised(Kids(q, children), total) == Counts(children)
  {
    if children != [] {
      var n := |children| - 1;
      KidsPromise(q, children[..n], total);
      assert Kids(q, children) == Kids(q, children[..n]) + [Kids(q, children)[n]];
      PromisedAppends(Kids(q, children[..n]), [Kids(q, children)[n]], total);
      assert [Kids(q, children)[n]][1..] == [];
    }
  }

  lemma KidApart(q: WirePath, a: string, b: string)
    requires a != b
    ensures !Within(Kid(q, a), Kid(q, b))
  {
    assert Kid(q, a).components[|q.components|] == a && Kid(q, b).components[|q.components|] == b;
  }

  lemma WithinTrans(a: WirePath, b: WirePath, c: WirePath)
    requires Within(a, b) && Within(b, c)
    ensures Within(a, c)
  {
  }

  /** Prefixes of one path are comparable. */
  lemma Comparable(a: WirePath, b: WirePath, p: WirePath)
    requires Within(a, p) && Within(b, p)
    ensures Within(a, b) || Within(b, a)
  {
  }

  /** A prefix apart from `q` is apart from the children of `q`. */
  lemma KidStaysApart(q: WirePath, name: string, other: WirePath)
    requires !Within(q, other) && !Within(other, q)
    ensures !Within(Kid(q, name), other) && !Within(other, Kid(q, name))
  {
    var kid := Kid(q, name);
    assert kid.components[..|q.components|] == q.components;
    if Within(kid, other) { WithinTrans(q, kid, other); }
    if Within(other, kid) { Comparable(other, q, kid); }
  }

  lemma ExpandApart(x: Pending, rest: seq<Pending>, children: seq<ChildSummary>)
    requires Apart([x] + rest) && Ordered(children)
    ensures Apart(Kids(x.prefix, children) + rest)
  {
    var kids := Kids(x.prefix, children);
    var f := kids + rest;
    var old' := [x] + rest;
    forall i, j | 0 <= i < |f| && 0 <= j < |f| && i != j ensures !Within(f[i].prefix, f[j].prefix) {
      if i < |kids| && j < |kids| {
        if i < j { OrderedApart(children, i, j); } else { OrderedApart(children, j, i); }
        KidApart(x.prefix, children[i].name, children[j].name);
      } else if i < |kids| {
        assert old'[j - |kids| + 1] == f[j] && old'[0] == x;
        KidStaysApart(x.prefix, children[i].name, f[j].prefix);
      } else if j < |kids| {
        assert old'[i - |kids| + 1] == f[i] && old'[0] == x;
        KidStaysApart(x.prefix, children[j].name, f[i].prefix);
      } else {
        assert old'[i - |kids| + 1] == f[i] && old'[j - |kids| + 1] == f[j];
      }
    }
  }

  /** What is clear of a node is clear of its children. */
  lemma ExpandClear(x: Pending, rest: seq<Pending>, children: seq<ChildSummary>, p: WirePath)
    requires Clear([x] + rest, p) || (p == x.prefix && Apart([x] + rest))
    ensures Clear(Kids(x.prefix, children) + rest, p)
  {
    var kids := Kids(x.prefix, children);
    var f := kids + rest;
    var old' := [x] + rest;
    forall i | 0 <= i < |f| ensures !Within(f[i].prefix, p) {
      if i < |kids| {
        assert old'[0] == x;
        assert Within(x.prefix, f[i].prefix);
        if p != x.prefix && Within(f[i].prefix, p) { WithinTrans(x.prefix, f[i].prefix, p); }
      } else {
        assert old'[i - |kids| + 1] == f[i];
      }
    }
  }

  function WithRecord(records: Records, record: Option<SyncRecord>): Records {
    if record.Some? then records[record.value.path := record.value] else records
  }

  /** A node is replaced by its own record and its children. */
  lemma Expand(records: Records, asked: seq<WirePath>, x: Pending, rest: seq<Pending>, s: Summary, total: nat)
    requires Sound(records, asked, [x] + rest, total) && WellFormed(s) && s.prefix == x.prefix
    requires s.count == if x.expected.Some? then x.expected.value.count else total
    ensures s.record.Some? ==> s.prefix !in records
    ensures Sound(WithRecord(records, s.record), asked + [x.prefix], Kids(x.prefix, s.children) + rest, total)
  {
    var f := Kids(x.prefix, s.children) + rest;
    var now := WithRecord(records, s.record);
    var then' := asked + [x.prefix];
    assert ([x] + rest)[0] == x && ([x] + rest)[1..] == rest;
    ExpandApart(x, rest, s.children);
    assert x.prefix !in records;
    forall p | p in now ensures Clear(f, p) { ExpandClear(x, rest, s.children, p); }
    forall i | 0 <= i < |then'| ensures Clear(f, then'[i]) { ExpandClear(x, rest, s.children, then'[i]); }
    assert forall i :: 0 <= i < |asked| ==> asked[i] != x.prefix;
    KidsPromise(x.prefix, s.children, total);
    PromisedAppends(Kids(x.prefix, s.children), rest, total);
  }

  lemma TailApart(x: Pending, rest: seq<Pending>)
    requires Apart([x] + rest)
    ensures Apart(rest) && Clear(rest, x.prefix)
  {
    var f := [x] + rest;
    assert forall i :: 0 <= i < |rest| ==> rest[i] == f[i + 1];
    assert f[0] == x;
  }

  lemma TailClear(x: Pending, rest: seq<Pending>, p: WirePath)
    requires Clear([x] + rest, p)
    ensures Clear(rest, p) && !Within(x.prefix, p)
  {
    var f := [x] + rest;
    assert f[0] == x && forall i :: 0 <= i < |rest| ==> rest[i] == f[i + 1];
  }

  lemma TailClearBelow(x: Pending, rest: seq<Pending>, p: WirePath)
    requires Apart([x] + rest) && Within(x.prefix, p)
    ensures Clear(rest, p)
  {
    var f := [x] + rest;
    assert f[0] == x;
    forall i | 0 <= i < |rest| ensures !Within(rest[i].prefix, p) {
      assert f[i + 1] == rest[i];
      if Within(rest[i].prefix, p) { Comparable(rest[i].prefix, x.prefix, p); }
    }
  }

  /** A subtree is taken from the local tree; it has as many records as were promised. */
  lemma Reuse(records: Records, asked: seq<WirePath>, x: Pending, rest: seq<Pending>, local: Records, total: nat)
    requires Sound(records, asked, [x] + rest, total)
    requires |KeysUnder(local, x.prefix)| == if x.expected.Some? then x.expected.value.count else total
    ensures records.Keys !! Under(local, x.prefix).Keys
    ensures Sound(records + Under(local, x.prefix), asked, rest, total)
  {
    var more := Under(local, x.prefix);
    var f := [x] + rest;
    assert f[0] == x && f[1..] == rest;
    TailApart(x, rest);
    forall p | p in records ensures Clear(rest, p) && p !in more {
      assert Clear(f, p);
      TailClear(x, rest, p);
    }
    forall p | p in more ensures Clear(rest, p) { TailClearBelow(x, rest, p); }
    forall i | 0 <= i < |asked| ensures Clear(rest, asked[i]) {
      assert Clear(f, asked[i]);
      TailClear(x, rest, asked[i]);
    }
    Disjoint(records, more);
    assert more.Keys == KeysUnder(local, x.prefix);
  }

  lemma Disjoint(a: Records, b: Records)
    requires a.Keys !! b.Keys
    ensures |a + b| == |a| + |b|
  {
    assert (a + b).Keys == a.Keys + b.Keys;
    assert |a.Keys + b.Keys| == |a.Keys| + |b.Keys|;
    assert |(a + b).Keys| == |a + b|;
  }

  /** A child that does not match goes to the end of the queue. */
  lemma Postpone(records: Records, asked: seq<WirePath>, x: Pending, rest: seq<Pending>, total: nat)
    requires Sound(records, asked, [x] + rest, total)
    ensures Sound(records, asked, rest + [x], total)
  {
    var f, g := [x] + rest, rest + [x];
    var n := |rest|;
    assert f[0] == x && f[1..] == rest && g[n] == x;
    assert forall i :: 0 <= i < n ==> g[i] == f[i + 1];
    forall i, j | 0 <= i < |g| && 0 <= j < |g| && i != j ensures !Within(g[i].prefix, g[j].prefix) {
      assert g[i] == f[if i < n then i + 1 else 0] && g[j] == f[if j < n then j + 1 else 0];
    }
    forall p | Clear(f, p) ensures Clear(g, p) {}
    PromisedAppends(rest, [x], total);
    PromisedAppends([x], rest, total);
  }

  /** The node itself was answered from the local tree. */
  lemma Visit(records: Records, asked: seq<WirePath>, f: seq<Pending>, q: WirePath, total: nat)
    requires Sound(records, asked, f, total) && Clear(f, q)
    requires forall i :: 0 <= i < |asked| ==> asked[i] != q
    ensures Sound(records, asked + [q], f, total)
  {
  }

  // ---------------------------------------------------------------- an honest peer

  /** Digest and count of a node. */
  function Claim(h: Hasher, m: Records, q: WirePath): Child {
    Child(Digest(h, m, q), |KeysUnder(m, q)|)
  }

  /** `node_summary` as the other side serves it from its tree. */
  ghost predicate Honest(h: Hasher, remote: Records, q: WirePath, s: Summary) {
    && s.prefix == q
    && Child(s.hash, s.count) == Claim(h, remote, q)
    && s.record == (if q in remote then Some(remote[q]) else None)
    && Ordered(s.children)
    && (forall i :: 0 <= i < |s.children| ==>
          && s.children[i].name in KidNames(remote, q)
          && Child(s.children[i].hash, s.children[i].count) == Claim(h, remote, Kid(q, s.children[i].name)))
    && (forall name :: name in KidNames(remote, q) ==> Lists(s.children, name))
  }

  predicate Lists(children: seq<ChildSummary>, name: string) {
    exists i :: 0 <= i < |children| && children[i].name == name
  }

  ghost predicate HonestPeer(h: Hasher, remote: Records, peer: Peer) {
    && peer.finishes
    && forall n, q :: HasNode(remote, q) ==>
         && peer.answer(n, q).Node?
         && peer.answer(n, q).summary.Some?
         && Honest(h, remote, q, peer.answer(n, q).summary.value)
  }

  function KeysOfKids(m: Records, q: WirePath, children: seq<ChildSummary>): set<WirePath> {
    set p | p in KeysUnder(m, q) && |p.components| > |q.components| && Lists(children, p.components[|q.components|])
  }

  lemma ListsSplits(children: seq<ChildSummary>, last: ChildSummary, name: string)
    ensures Lists(children + [last], name) <==> Lists(children, name) || last.name == name
  {
    var all := children + [last];
    assert all[|children|] == last;
    assert forall i :: 0 <= i < |children| ==> all[i] == children[i];
  }

  lemma KeysOfOneMore(m: Records, q: WirePath, children: seq<ChildSummary>, last: ChildSummary)
    requires !Lists(children, last.name)
    ensures KeysOfKids(m, q, children + [last]) == KeysOfKids(m, q, children) + KeysUnder(m, Kid(q, last.name))
    ensures KeysOfKids(m, q, children) !! KeysUnder(m, Kid(q, last.name))
  {
    var all := children + [last];
    var kid := Kid(q, last.name);
    var n := |q.components|;
    assert kid.components[n] == last.name;
    forall p | p in KeysUnder(m, kid) ensures p in KeysOfKids(m, q, all) && p !in KeysOfKids(m, q, children) {
      KidOfPath(m, q, last.name, p);
      assert all[|children|] == last;
    }
    forall p | p in KeysOfKids(m, q, children) ensures p in KeysOfKids(m, q, all) {
      var i :| 0 <= i < |children| && children[i].name == p.components[n];
      assert all[i].name == p.components[n];
    }
    forall p | p in KeysOfKids(m, q, all) && p !in KeysOfKids(m, q, children) ensures p in KeysUnder(m, kid) {
      ListsSplits(children, last, p.components[n]);
      assert kid.components == p.components[..n + 1];
    }
  }

  /** The children of a node share out the records below it. */
  lemma {:induction false} KidsShareOut(h: Hasher, m: Records, q: WirePath, children: seq<ChildSummary>, k: nat)
    requires Ordered(children) && k <= |children|
    requires forall i :: 0 <= i < |children| ==> children[i].count == |KeysUnder(m, Kid(q, children[i].name))|
    ensures |KeysOfKids(m, q, children[..k])| == Counts(children[..k])
  {
    if k == 0 {
      assert KeysOfKids(m, q, children[..0]) == {};
    } else {
      KidsShareOut(h, m, q, children, k - 1);
      var before, last := children[..k - 1], children[k - 1];
      forall i | 0 <= i < k - 1 ensures before[i].name != last.name { OrderedApart(children, i, k - 1); }
      assert children[..k] == before + [last];
      KeysOfOneMore(m, q, before, last);
    }
  }

  lemma HonestCounts(h: Hasher, remote: Records, q: WirePath, s: Summary)
    requires Honest(h, remote, q, s)
    ensures s.count == Own(s.record) + Counts(s.children)
  {
    hide Counts, Ordered, Digest, KidNames;
    KidsShareOut(h, remote, q, s.children, |s.children|);
    assert s.children[..|s.children|] == s.children;
    var kids := KeysOfKids(remote, q, s.children);
    var own := if q in remote then {q} else {};
    forall p | p in KeysUnder(remote, q) ensures p in own + kids {
      WhichKid(remote, q, p);
    }
    assert KeysUnder(remote, q) == own + kids;
    assert own !! kids;
  }

  lemma HonestChildren(h: Hasher, remote: Records, q: WirePath, s: Summary)
    requires WellKeyed(remote) && Honest(h, remote, q, s)
    ensures ChildrenOk(s.children)
  {
    forall i | 0 <= i < |s.children| ensures ValidName(s.children[i].name) && s.children[i].count > 0 {
      KidOnRecord(remote, q, s.children[i].name);
    }
  }

  lemma NodePath(m: Records, q: WirePath)
    requires WellKeyed(m) && HasNode(m, q)
    ensures q != ROOT ==> ValidPath(q) && |KeysUnder(m, q)| > 0
    ensures |KeysUnder(m, q)| <= |m|
    ensures q == ROOT ==> |KeysUnder(m, q)| == |m|
  {
    UnderRoot(m);
    SubsetSize(KeysUnder(m, q), m.Keys);
    assert |m.Keys| == |m|;
    if q != ROOT {
      var p :| p in KeysUnder(m, q);
      assert forall i :: 0 <= i < |q.components| ==> q.components[i] == p.components[i];
    }
  }

  /** An honest answer passes the check, within the record limit. */
  lemma HonestWellFormed(h: Hasher, remote: Records, q: WirePath, s: Summary)
    requires WellKeyed(remote) && HasNode(remote, q) && Honest(h, remote, q, s)
    ensures WellFormed(s) <==> s.count <= LIMIT
    ensures s.count <= |remote| && (q == ROOT ==> s.count == |remote|)
  {
    HonestCounts(h, remote, q, s);
    HonestChildren(h, remote, q, s);
    NodePath(remote, q);
    hide ChildrenOk, Counts, KeysUnder, KidNames, Digest, HasNode;
  }

  /** A child leads to a record, so its name is a valid component. */
  lemma KidOnRecord(m: Records, q: WirePath, name: string)
    requires WellKeyed(m) && name in KidNames(m, q)
    ensures ValidName(name) && KeysUnder(m, Kid(q, name)) != {} && |KeysUnder(m, Kid(q, name))| > 0
  {
    var p :| p in KeysUnder(m, q) && |p.components| > |q.components| && p.components[|q.components|] == name;
    WhichKid(m, q, p);
  }

  // ---------------------------------------------------------------- what an honest walk collects

  /** The collected records are the peer's, and the frontier leads to all the others. */
  ghost predicate Faithful(h: Hasher, remote: Records, records: Records, f: seq<Pending>) {
    && (forall p :: p in records ==> p in remote && records[p] == remote[p])
    && (forall p :: p in remote ==> p in records || !Clear(f, p))
    && (forall i :: 0 <= i < |f| ==> HasNode(remote, f[i].prefix)
                                     && (f[i].expected.Some? ==> f[i].expected.value == Claim(h, remote, f[i].prefix)))
  }

  /** A node below the root that the two trees do not agree on. */
  predicate Wants(remote: Records, local: Records, q: WirePath) {
    q != ROOT && KeysUnder(remote, q) != {} && Under(remote, q) != Under(local, q)
  }

  /** The nodes below the root that an honest walk must ask for. */
  function Wanted(remote: Records, local: Records): (r: set<WirePath>)
    ensures forall q :: q in r <==> Wants(remote, local, q)
  {
    forall q | Wants(remote, local, q) ensures q in NodesUnder(remote, ROOT) { NodeOnRecord(remote, q); }
    set q | q in NodesUnder(remote, ROOT) && Wants(remote, local, q)
  }

  lemma NodeOnRecord(m: Records, q: WirePath)
    requires KeysUnder(m, q) != {}
    ensures q in NodesUnder(m, ROOT)
  {
    var p :| p in KeysUnder(m, q);
    assert Cut(p, |q.components|) == q;
    UnderRoot(m);
  }

  ghost predicate Needed(remote: Records, local: Records, q: WirePath) {
    q == ROOT || Wants(remote, local, q)
  }

  /** Only needed nodes were asked for, and the frontier leads to the others. */
  ghost predicate Asks(remote: Records, local: Records, asked: seq<WirePath>, f: seq<Pending>) {
    && (forall i :: 0 <= i < |asked| ==> Needed(remote, local, asked[i]))
    && (forall q :: Wants(remote, local, q) ==> q in asked || !Clear(f, q))
  }

  lemma HonestExpandCovers(h: Hasher, remote: Records, x: Pending, rest: seq<Pending>, s: Summary, p: WirePath)
    requires Honest(h, remote, x.prefix, s) && !Clear([x] + rest, p) && p != x.prefix
    requires KeysUnder(remote, p) != {}
    ensures !Clear(Kids(x.prefix, s.children) + rest, p)
  {
    var kids := Kids(x.prefix, s.children);
    var f := kids + rest;
    var k :| 0 <= k < |[x] + rest| && Within(([x] + rest)[k].prefix, p);
    if k > 0 {
      assert f[|kids| + k - 1] == ([x] + rest)[k];
    } else {
      var n := |x.prefix.components|;
      var r :| r in KeysUnder(remote, p);
      WithinTrans(x.prefix, p, r);
      WhichKid(remote, x.prefix, r);
      assert x.prefix.components <= p.components;
      assert |p.components| == n ==> p.components == x.prefix.components;
      var name := p.components[n];
      assert r.components[n] == name;
      assert Lists(s.children, name);
      var i :| 0 <= i < |s.children| && s.children[i].name == name;
      assert f[i] == kids[i];
      assert Kid(x.prefix, name).components == p.components[..n + 1];
    }
  }

  lemma HonestExpand(h: Hasher, remote: Records, local: Records, records: Records, asked: seq<WirePath>,
                     x: Pending, rest: seq<Pending>, s: Summary)
    requires WellKeyed(remote) && Honest(h, remote, x.prefix, s)
    requires Faithful(h, remote, records, [x] + rest) && Asks(remote, local, asked, [x] + rest)
    requires Needed(remote, local, x.prefix)
    ensures Faithful(h, remote, WithRecord(records, s.record), Kids(x.prefix, s.children) + rest)
    ensures Asks(remote, local, asked + [x.prefix], Kids(x.prefix, s.children) + rest)
  {
    hide Digest, Ordered, Clear, KidNames, Under;
    var f, g := [x] + rest, Kids(x.prefix, s.children) + rest;
    var now := WithRecord(records, s.record);
    forall p | p in remote && p !in now ensures !Clear(g, p) {
      assert p in KeysUnder(remote, p);
      HonestExpandCovers(h, remote, x, rest, s, p);
    }
    forall q | Wants(remote, local, q) && q !in asked + [x.prefix] ensures !Clear(g, q) {
      assert (asked + [x.prefix])[|asked|] == x.prefix;
      HonestExpandCovers(h, remote, x, rest, s, q);
    }
    forall i | 0 <= i < |g|
      ensures HasNode(remote, g[i].prefix)
      ensures g[i].expected.Some? ==> g[i].expected.value == Claim(h, remote, g[i].prefix)
    {
      if i < |s.children| {
        KidOnRecord(remote, x.prefix, s.children[i].name);
      } else {
        assert g[i] == f[i - |s.children| + 1];
      }
    }
  }

  lemma ClearSplits(x: Pending, rest: seq<Pending>, p: WirePath)
    ensures Clear([x] + rest, p) <==> !Within(x.prefix, p) && Clear(rest, p)
    ensures Clear(rest + [x], p) <==> !Within(x.prefix, p) && Clear(rest, p)
  {
    var f, g := [x] + rest, rest + [x];
    assert f[0] == x && g[|rest|] == x;
    assert forall i :: 0 <= i < |rest| ==> rest[i] == f[i + 1] && rest[i] == g[i];
    assert forall i :: 1 <= i < |f| ==> f[i] == rest[i - 1];
  }

  /** Equal claims: the local subtree is the peer's subtree, and nothing below it is needed. */
  lemma HonestReuse(h: Hasher, remote: Records, local: Records, records: Records, asked: seq<WirePath>,
                    x: Pending, rest: seq<Pending>)
    requires CollisionFree(h) && Claim(h, local, x.prefix) == Claim(h, remote, x.prefix)
    requires Faithful(h, remote, records, [x] + rest) && Asks(remote, local, asked, [x] + rest)
    ensures Faithful(h, remote, records + Under(local, x.prefix), rest)
    ensures Asks(remote, local, asked, rest)
  {
    DigestIdentifies(h, local, remote, x.prefix);
    var more := Under(local, x.prefix);
    forall p | p in remote && p !in records + more ensures !Clear(rest, p) {
      ClearSplits(x, rest, p);
      assert Within(x.prefix, p) ==> p in Under(remote, x.prefix);
    }
    forall p | p in more ensures p in remote && more[p] == remote[p] {
      assert p in Under(remote, x.prefix);
    }
    forall q | Wants(remote, local, q) && q !in asked ensures !Clear(rest, q) {
      ClearSplits(x, rest, q);
      if Within(x.prefix, q) { UnderNarrows(local, remote, x.prefix, q); }
    }
    assert forall i :: 0 <= i < |rest| ==> rest[i] == ([x] + rest)[i + 1];
  }

  lemma HonestPostpone(h: Hasher, remote: Records, local: Records, records: Records, asked: seq<WirePath>,
                       x: Pending, rest: seq<Pending>)
    requires Faithful(h, remote, records, [x] + rest) && Asks(remote, local, asked, [x] + rest)
    ensures Faithful(h, remote, records, rest + [x])
    ensures Asks(remote, local, asked, rest + [x])
  {
    var f, g := [x] + rest, rest + [x];
    forall p ensures Clear(f, p) <==> Clear(g, p) { ClearSplits(x, rest, p); }
    assert f[0] == x && g[|rest|] == x;
    assert forall i :: 0 <= i < |rest| ==> g[i] == f[i + 1];
  }

  /** A node whose claim does not match is a node the trees disagree on. */
  lemma MismatchIsNeeded(h: Hasher, remote: Records, local: Records, q: WirePath)
    requires HasNode(remote, q) && LocalNode(h, local, q) != Some(Claim(h, remote, q))
    ensures Needed(remote, local, q)
  {
    if Under(remote, q) == Under(local, q) {
      DigestIsLocal(h, remote, local, q);
    }
  }

  /** What the walk looks up in the local tree. */
  function LocalNode(h: Hasher, local: Records, q: WirePath): Option<Child> {
    if HasNode(local, q) then Some(Claim(h, local, q)) else None
  }

  // ---------------------------------------------------------------- the walk

  /** `insert_snapshot_records`: refuses a path that is already there with another record. */
  method InsertRecords(records: Records, incoming: Records) returns (r: Result<Records, Error>)
    ensures r.Ok? <==> forall p :: p in records && p in incoming ==> records[p] == incoming[p]
    ensures r.Ok? ==> r.value == records + incoming
    ensures r.Err? ==> r.error == RepeatedPath
  {
    var result := records;
    var todo := incoming.Keys;
    while todo != {}
      invariant todo <= incoming.Keys
      invariant result.Keys == records.Keys + (incoming.Keys - todo)
      invariant forall p :: p in result ==> result[p] == if p in incoming.Keys - todo then incoming[p] else records[p]
      invariant forall p :: p in incoming.Keys - todo && p in records ==> records[p] == incoming[p]
    {
      var p :| p in todo;
      if p in result && result[p] != incoming[p] {
        return Err(RepeatedPath);
      }
      result := result[p := incoming[p]];
      todo := todo - {p};
    }
    return Ok(result);
  }

  /** Everything that holds on the way when the peer is honest. `f` is the whole frontier, `queue`
      the part of it that is queued. */
  ghost predicate Mirrors(h: Hasher, remote: Records, local: Records, records: Records, asked: seq<WirePath>,
                          f: seq<Pending>, queue: seq<Pending>) {
    && Faithful(h, remote, records, f)
    && Asks(remote, local, asked, f)
    && AllNeeded(remote, local, queue)
  }

  ghost predicate AllNeeded(remote: Records, local: Records, queue: seq<Pending>) {
    forall i :: 0 <= i < |queue| ==> Needed(remote, local, queue[i].prefix)
  }

  ghost predicate AllClaimed(queue: seq<Pending>) {
    forall i :: 0 <= i < |queue| ==> queue[i].expected.Some?
  }

  lemma {:induction false} ListingIsLonger(s: seq<WirePath>, t: set<WirePath>)
    requires forall x :: x in t ==> x in s
    ensures |t| <= |s|
  {
    if s == [] {
      assert t == {};
    } else {
      ListingIsLonger(s[1..], t - {s[0]});
      assert |t| <= |t - {s[0]}| + 1;
    }
  }

  /** The prefixes of a queue, and the one about to be queued. */
  function Upcoming(queue: seq<Pending>, x: Pending): (r: seq<WirePath>)
    ensures |r| == |queue| + 1 && r[|queue|] == x.prefix
    ensures forall i :: 0 <= i < |queue| ==> r[i] == queue[i].prefix
  {
    seq(|queue|, i requires 0 <= i < |queue| => queue[i].prefix) + [x.prefix]
  }

  lemma UpcomingDistinct(x: Pending, open: seq<Pending>, queue: seq<Pending>)
    requires Apart([x] + (open + queue))
    ensures Distinct(Upcoming(queue, x))
  {
    var f := [x] + (open + queue);
    var n := 1 + |open|;
    var u := Upcoming(queue, x);
    forall i, j | 0 <= i < j < |u| ensures u[i] != u[j] {
      assert f[n + i] == queue[i];
      assert j < |queue| ==> f[n + j] == queue[j];
      assert f[0] == x;
      var other := if j < |queue| then n + j else 0;
      assert !Within(f[n + i].prefix, f[other].prefix);
    }
  }

  lemma UpcomingUnasked(x: Pending, open: seq<Pending>, queue: seq<Pending>, q: WirePath)
    requires Clear([x] + (open + queue), q)
    ensures forall i :: 0 <= i < |queue| + 1 ==> Upcoming(queue, x)[i] != q
  {
    var f := [x] + (open + queue);
    var n := 1 + |open|;
    assert f[0] == x && forall i :: 0 <= i < |queue| ==> f[n + i] == queue[i];
  }

  lemma JoinDistinct(a: seq<WirePath>, b: seq<WirePath>)
    requires Distinct(a) && Distinct(b)
    requires forall i, j :: 0 <= i < |a| && 0 <= j < |b| ==> a[i] != b[j]
    ensures Distinct(a + b)
  {
  }

  /** Everything asked for, queued or about to be queued is a different needed node. */
  lemma NeededBound(remote: Records, local: Records, records: Records, asked: seq<WirePath>,
                    x: Pending, open: seq<Pending>, queue: seq<Pending>, total: nat)
    requires Sound(records, asked, [x] + (open + queue), total)
    requires forall i :: 0 <= i < |asked| ==> Needed(remote, local, asked[i])
    requires AllNeeded(remote, local, queue) && Needed(remote, local, x.prefix)
    ensures |asked| + |queue| + 1 <= 1 + |Wanted(remote, local)|
  {
    hide Clear, Apart, Wants, Promised, Within;
    var u := Upcoming(queue, x);
    UpcomingDistinct(x, open, queue);
    forall i, j | 0 <= i < |asked| && 0 <= j < |u| ensures asked[i] != u[j] {
      UpcomingUnasked(x, open, queue, asked[i]);
    }
    JoinDistinct(asked, u);
    var t := {ROOT} + Wanted(remote, local);
    assert forall i :: 0 <= i < |u| ==> u[i] in t;
    DistinctSize(asked + u, t);
  }

  lemma AppendNeeded(remote: Records, local: Records, queue: seq<Pending>, x: Pending)
    requires AllNeeded(remote, local, queue) && Needed(remote, local, x.prefix)
    ensures AllNeeded(remote, local, queue + [x])
  {
  }

  /** The next child of the node is the head of the frontier. */
  lemma HeadOf(open: seq<Pending>, i: nat, queue: seq<Pending>)
    requires i < |open|
    ensures open[i..] + queue == [open[i]] + (open[i + 1..] + queue)
    ensures (open[i + 1..] + queue) + [open[i]] == open[i + 1..] + (queue + [open[i]])
  {
  }

  lemma UnderIsWellKeyed(records: Records, local: Records, q: WirePath)
    requires WellKeyed(local) && WellKeyed(records)
    ensures WellKeyed(records + Under(local, q))
  {
  }

  lemma ClaimOf(h: Hasher, remote: Records, records: Records, x: Pending, rest: seq<Pending>)
    requires Faithful(h, remote, records, [x] + rest)
    ensures HasNode(remote, x.prefix) && (x.expected.Some? ==> x.expected.value == Claim(h, remote, x.prefix))
  {
    assert ([x] + rest)[0] == x;
  }

  /** The loop over the children of one answered node: each is taken from the local tree or queued.
      A child can be refused only for the node limit, and by an honest peer only when the trees
      really disagree on too many nodes. */
  method TakeChildren(h: Hasher, local: Records, q: WirePath, children: seq<ChildSummary>, records: Records,
                      queue: seq<Pending>, queried: nat,
                      ghost asked: seq<WirePath>, ghost total: nat, ghost remote: Records, ghost honest: bool)
    returns (r: Result<(Records, seq<Pending>), Error>)
    requires WellKeyed(local) && WellKeyed(records) && queried == |asked|
    requires Sound(records, asked, Kids(q, children) + queue, total)
    requires queried + |queue| <= LIMIT && AllClaimed(queue)
    requires honest ==> CollisionFree(h) && Mirrors(h, remote, local, records, asked, Kids(q, children) + queue, queue)
    ensures r.Err? ==> r.error == QueryLimit && (honest ==> 1 + |Wanted(remote, local)| > LIMIT)
    ensures r.Ok? ==>
              && WellKeyed(r.value.0)
              && Sound(r.value.0, asked, r.value.1, total)
              && queried + |r.value.1| <= LIMIT && AllClaimed(r.value.1)
              && (honest ==> Mirrors(h, remote, local, r.value.0, asked, r.value.1, r.value.1))
  {
    hide Sound, Faithful, Asks, AllNeeded, Needed, CollisionFree, WellKeyed, KeysUnder, Wanted, Promised, Digest, HasNode;
    var now, later := records, queue;
    ghost var open := Kids(q, children);
    assert open[0..] == open;
    for i := 0 to |children|
      invariant WellKeyed(now) && queried + |later| <= LIMIT && AllClaimed(later)
      invariant Sound(now, asked, open[i..] + later, total)
      invariant honest ==> Mirrors(h, remote, local, now, asked, open[i..] + later, later)
    {
      var child := children[i];
      var x := Pending(Kid(q, child.name), Some(Child(child.hash, child.count)));
      ghost var rest := open[i + 1..] + later;
      HeadOf(open, i, later);
      assert open[i] == x;
      if honest { ClaimOf(h, remote, now, x, rest); }
      if LocalNode(h, local, x.prefix) == x.expected {
        Reuse(now, asked, x, rest, local, total);
        if honest { HonestReuse(h, remote, local, now, asked, x, rest); }
        UnderIsWellKeyed(now, local, x.prefix);
        var inserted := InsertRecords(now, Under(local, x.prefix));
        now := inserted.value;
      } else {
        if honest {
          MismatchIsNeeded(h, remote, local, x.prefix);
          AsksNeeded(remote, local, asked, [x] + rest);
          NeededBound(remote, local, now, asked, x, open[i + 1..], later, total);
          AppendNeeded(remote, local, later, x);
          HonestPostpone(h, remote, local, now, asked, x, rest);
        }
        if |later| >= LIMIT - queried {
          return Err(QueryLimit);
        }
        Postpone(now, asked, x, rest, total);
        later := later + [x];
      }
    }
    assert open[|children|..] + later == later;
    return Ok((now, later));
  }

  lemma AsksNeeded(remote: Records, local: Records, asked: seq<WirePath>, f: seq<Pending>)
    requires Asks(remote, local, asked, f)
    ensures forall i :: 0 <= i < |asked| ==> Needed(remote, local, asked[i])
  {
  }

  /** The count that the peer's first answer claims for the whole snapshot. */
  function RootCount(peer: Peer): nat {
    match peer.answer(0, ROOT)
    case Node(Some(s)) => s.count
    case _ => 0
  }

  /** One query: the answer must name its prefix, fit together and agree with its parent. */
  method AskNode(peer: Peer, x: Pending, queried: nat) returns (r: Result<Summary, Error>)
    ensures r.Ok? <==>
            && peer.answer(queried, x.prefix).Node?
            && peer.answer(queried, x.prefix).summary.Some?
            && var s := peer.answer(queried, x.prefix).summary.value;
            && s.prefix == x.prefix && WellFormed(s) && (x.expected.Some? ==> x.expected.value == Child(s.hash, s.count))
    ensures r.Ok? ==> peer.answer(queried, x.prefix) == Node(Some(r.value))
    ensures r == match peer.answer(queried, x.prefix)
                 case Refused => Err(PeerRefused)
                 case Node(None) => Err(Disappeared)
                 case Node(Some(s)) =>
                   if s.prefix != x.prefix then Err(PrefixMismatch)
                   else if !WellFormed(s) then Err(Malformed)
                   else if x.expected.Some? && x.expected.value != Child(s.hash, s.count) then Err(ChildDiffers)
                   else Ok(s)
    ensures r == Err(Malformed) <==>
            && peer.answer(queried, x.prefix).Node?
            && peer.answer(queried, x.prefix).summary.Some?
            && peer.answer(queried, x.prefix).summary.value.prefix == x.prefix
            && !WellFormed(peer.answer(queried, x.prefix).summary.value)
  {
    match peer.answer(queried, x.prefix)
    case Refused => return Err(PeerRefused);
    case Node(None) => return Err(Disappeared);
    case Node(Some(s)) =>
      if s.prefix != x.prefix {
        return Err(PrefixMismatch);
      }
      var ok := ValidateSummary(s);
      if !ok {
        return Err(Malformed);
      }
      if x.expected.Some? && x.expected.value != Child(s.hash, s.count) {
        return Err(ChildDiffers);
      }
      return Ok(s);
  }

  /** The last checks, and the snapshot they release. */
  function Seal(h: Hasher, records: Records, root: Child, queried: nat): Result<RemoteSnapshot, Error> {
    if |records| != root.count then Err(CountMismatch)
    else if Digest(h, records, ROOT) != root.hash then Err(RootMismatch)
    else Ok(RemoteSnapshot(records, root.hash, root.count, queried))
  }

  lemma StartIsSound(h: Hasher, remote: Records, local: Records, total: nat)
    ensures Sound(map[], [], [Pending(ROOT, None)], total)
    ensures Mirrors(h, remote, local, map[], [], [Pending(ROOT, None)], [Pending(ROOT, None)])
  {
    var f := [Pending(ROOT, None)];
    assert f[1..] == [];
    assert forall p :: Within(f[0].prefix, p);
    assert HasNode(remote, f[0].prefix);
  }

  /** An honest peer's answer is accepted, unless it holds too many records. */
  lemma HonestAnswer(h: Hasher, remote: Records, peer: Peer, x: Pending, queried: nat)
    requires HonestPeer(h, remote, peer) && WellKeyed(remote) && HasNode(remote, x.prefix)
    requires x.expected.Some? ==> x.expected.value == Claim(h, remote, x.prefix)
    ensures peer.answer(queried, x.prefix).Node? && peer.answer(queried, x.prefix).summary.Some?
    ensures var s := peer.answer(queried, x.prefix).summary.value;
            && s.prefix == x.prefix
            && Honest(h, remote, x.prefix, s)
            && Child(s.hash, s.count) == Claim(h, remote, x.prefix)
            && (WellFormed(s) <==> s.count <= LIMIT)
            && s.count <= |remote| && (x.prefix == ROOT ==> s.count == |remote|)
  {
    HonestWellFormed(h, remote, x.prefix, peer.answer(queried, x.prefix).summary.value);
  }

  lemma HonestCollected(h: Hasher, remote: Records, records: Records)
    requires Faithful(h, remote, records, [])
    ensures records == remote
  {
    assert forall p :: Clear([], p);
    assert forall p :: p in remote ==> p in records;
    assert records.Keys == remote.Keys;
  }

  lemma HonestAsked(remote: Records, local: Records, asked: seq<WirePath>)
    requires Asks(remote, local, asked, []) && ROOT in asked
    ensures forall q :: q in asked <==> q == ROOT || q in Wanted(remote, local)
  {
    hide Wants;
    forall q | q in asked ensures q == ROOT || q in Wanted(remote, local) {
      var i :| 0 <= i < |asked| && asked[i] == q;
      assert Needed(remote, local, asked[i]);
    }
    forall q | q in Wanted(remote, local) ensures q in asked {
      assert Clear([], q);
    }
  }

  /** An exhausted honest walk has collected everything and asked for exactly the needed nodes. */
  lemma HonestEnd(h: Hasher, remote: Records, local: Records, records: Records, asked: seq<WirePath>, total: nat)
    requires Sound(records, asked, [], total) && Mirrors(h, remote, local, records, asked, [], []) && ROOT in asked
    ensures records == remote
    ensures forall q :: q in asked <==> q == ROOT || q in Wanted(remote, local)
    ensures |asked| == 1 + |Wanted(remote, local)|
  {
    hide Faithful, Asks, Promised, Wanted, Clear, AllNeeded, Apart;
    HonestCollected(h, remote, records);
    HonestAsked(remote, local, asked);
    var t := {ROOT} + Wanted(remote, local);
    DistinctSize(asked, t);
    ListingIsLonger(asked, t);
  }

  ghost predicate HonestSession(h: Hasher, remote: Records, peer: Peer) {
    CollisionFree(h) && WellKeyed(remote) && HonestPeer(h, remote, peer)
  }

  lemma NeededTail(remote: Records, local: Records, x: Pending, rest: seq<Pending>)
    requires AllNeeded(remote, local, [x] + rest)
    ensures Needed(remote, local, x.prefix) && AllNeeded(remote, local, rest)
  {
    var f := [x] + rest;
    assert f[0] == x && forall i :: 0 <= i < |rest| ==> rest[i] == f[i + 1];
  }

  /** The node itself is answered from the local tree. */
  lemma ReuseNode(records: Records, asked: seq<WirePath>, x: Pending, rest: seq<Pending>, local: Records, total: nat)
    requires Sound(records, asked, [x] + rest, total)
    requires |KeysUnder(local, x.prefix)| == if x.expected.Some? then x.expected.value.count else total
    ensures records.Keys !! Under(local, x.prefix).Keys
    ensures Sound(records + Under(local, x.prefix), asked + [x.prefix], rest, total)
  {
    Reuse(records, asked, x, rest, local, total);
    TailApart(x, rest);
    assert ([x] + rest)[0] == x;
    forall i | 0 <= i < |asked| ensures asked[i] != x.prefix { assert Clear([x] + rest, asked[i]); }
    Visit(records + Under(local, x.prefix), asked, rest, x.prefix, total);
  }

  lemma AsksOneMore(remote: Records, local: Records, asked: seq<WirePath>, f: seq<Pending>, q: WirePath)
    requires Asks(remote, local, asked, f) && Needed(remote, local, q)
    ensures Asks(remote, local, asked + [q], f)
  {
  }

  lemma OneRecordIsWellKeyed(records: Records, s: Summary)
    requires WellKeyed(records) && WellFormed(s)
    ensures WellKeyed(WithRecord(records, s.record))
  {
  }

  lemma SummaryCount(s: Summary)
    requires WellFormed(s)
    ensures s.count <= LIMIT
  {
  }

  /** What the walk does with an accepted answer: the whole subtree comes from the local tree, or
      the node's own record is taken and its children are looked at. */
  method TakeNode(h: Hasher, local: Records, x: Pending, s: Summary, records: Records, rest: seq<Pending>, queried: nat,
                  ghost asked: seq<WirePath>, ghost total: nat, ghost remote: Records, ghost honest: bool)
    returns (r: Result<(Records, seq<Pending>), Error>)
    requires WellKeyed(local) && WellKeyed(records) && WellFormed(s) && s.prefix == x.prefix
    requires s.count == if x.expected.Some? then x.expected.value.count else total
    requires queried == |asked| + 1 && queried + |rest| <= LIMIT && AllClaimed(rest)
    requires Sound(records, asked, [x] + rest, total)
    requires honest ==>
               && CollisionFree(h) && WellKeyed(remote)
               && Honest(h, remote, x.prefix, s) && Child(s.hash, s.count) == Claim(h, remote, x.prefix)
               && Mirrors(h, remote, local, records, asked, [x] + rest, [x] + rest)
    ensures r.Err? ==> r.error == QueryLimit && (honest ==> 1 + |Wanted(remote, local)| > LIMIT)
    ensures LocalNode(h, local, x.prefix) == Some(Child(s.hash, s.count)) ==> r == Ok((records + Under(local, x.prefix), rest))
    ensures r.Ok? ==>
              && WellKeyed(r.value.0)
              && Sound(r.value.0, asked + [x.prefix], r.value.1, total)
              && queried + |r.value.1| <= LIMIT && AllClaimed(r.value.1)
              && (honest ==> Mirrors(h, remote, local, r.value.0, asked + [x.prefix], r.value.1, r.value.1))
  {
    hide Sound, Faithful, Asks, AllNeeded, Needed, CollisionFree, WellKeyed, KeysUnder, Wanted, Promised, Digest, HasNode,
      Honest, WellFormed, AllClaimed;
    if honest { NeededTail(remote, local, x, rest); }
    if LocalNode(h, local, x.prefix) == Some(Child(s.hash, s.count)) {
      ReuseNode(records, asked, x, rest, local, total);
      if honest {
        HonestReuse(h, remote, local, records, asked, x, rest);
        AsksOneMore(remote, local, asked, rest, x.prefix);
      }
      UnderIsWellKeyed(records, local, x.prefix);
      var inserted := InsertRecords(records, Under(local, x.prefix));
      return Ok((inserted.value, rest));
    }
    Expand(records, asked, x, rest, s, total);
    if honest { HonestExpand(h, remote, local, records, asked, x, rest, s); }
    OneRecordIsWellKeyed(records, s);
    r := TakeChildren(h, local, x.prefix, s.children, WithRecord(records, s.record), rest, queried,
                      asked + [x.prefix], total, remote, honest);
  }

  /** Whoever the peer is, its first answer claims digest and count of the local tree. */
  ghost predicate RootMatches(h: Hasher, local: Records, peer: Peer) {
    match peer.answer(0, ROOT)
    case Node(Some(s)) => s.prefix == ROOT && WellFormed(s) && Child(s.hash, s.count) == Claim(h, local, ROOT)
    case _ => false
  }

  lemma RootMatchMeans(h: Hasher, local: Records, peer: Peer)
    requires RootMatches(h, local, peer)
    ensures peer.answer(0, ROOT).Node? && peer.answer(0, ROOT).summary.Some?
    ensures var s := peer.answer(0, ROOT).summary.value;
            s.prefix == ROOT && WellFormed(s) && LocalNode(h, local, ROOT) == Some(Child(s.hash, s.count))
    ensures RootCount(peer) == |local| && RootHash(peer) == Digest(h, local, ROOT)
    ensures map[] + Under(local, ROOT) == local
  {
    UnderRoot(local);
    assert |local.Keys| == |local|;
  }

  /** `fetch_snapshot_connected`. Whatever the peer answers, the walk ends, asks for at most LIMIT
      nodes and for none twice, and neither of the checks for a repeated path and for the final
      count can fail; a released snapshot has the root digest that the peer claimed first. An honest
      peer's snapshot is fetched exactly, at the price of the root and the nodes the trees disagree
      on, and it is refused exactly when records or nodes exceed the limit. `remote` is any map that
      the peer may be serving honestly. */
  method FetchSnapshot(h: Hasher, local: Records, peer: Peer, ghost remote: Records)
    returns (r: Result<RemoteSnapshot, Error>, asked: seq<WirePath>)
    requires WellKeyed(local)
    ensures |asked| <= LIMIT && forall i, j :: 0 <= i < j < |asked| ==> asked[i] != asked[j]
    ensures r.Err? ==> r.error != RepeatedPath && r.error != CountMismatch
    ensures r.Ok? ==>
              && r.value.queried == |asked| && asked != [] && asked[0] == ROOT && peer.finishes
              && WellKeyed(r.value.records) && |r.value.records| == r.value.count <= LIMIT
              && Digest(h, r.value.records, ROOT) == r.value.rootHash
              && peer.answer(0, ROOT).Node? && peer.answer(0, ROOT).summary.Some?
              && peer.answer(0, ROOT).summary.value.hash == r.value.rootHash
    ensures HonestSession(h, remote, peer) ==>
              (r.Ok? <==> |remote| <= LIMIT && 1 + |Wanted(remote, local)| <= LIMIT)
    ensures HonestSession(h, remote, peer) && r.Ok? ==>
              && r.value.records == remote
              && (forall q :: q in asked <==> q == ROOT || q in Wanted(remote, local))
              && |asked| == 1 + |Wanted(remote, local)|
    ensures HonestSession(h, remote, peer) && r.Ok? && remote == local ==> asked == [ROOT]
    ensures CollisionFree(h) && r.Ok? && Digest(h, remote, ROOT) == r.value.rootHash ==> r.value.records == remote
    ensures RootMatches(h, local, peer) && peer.finishes ==> asked == [ROOT] && r.Ok? && r.value.records == local
    ensures HonestSession(h, remote, peer) && r.Err? ==>
              r.error == if |remote| > LIMIT then Malformed else QueryLimit
  {
    hide Sound, Faithful, Asks, AllNeeded, Needed, CollisionFree, WellKeyed, KeysUnder, Wanted, Promised, Digest, HasNode,
      HonestPeer, Honest, WellFormed, Mirrors, RootMatches;
    ghost var same := RootMatches(h, local, peer);
    if same { RootMatchMeans(h, local, peer); }
    ghost var honest := HonestSession(h, remote, peer);
    ghost var total := RootCount(peer);
    var queue := [Pending(ROOT, None)];
    var records: Records := map[];
    var root: Option<Child> := None;
    asked := [];
    StartIsSound(h, remote, local, total);
    EmptyIsWellKeyed();
    while queue != []
      invariant Sound(records, asked, queue, total) && WellKeyed(records)
      invariant |asked| + |queue| <= LIMIT
      invariant asked == [] ==> queue == [Pending(ROOT, None)]
      invariant asked != [] ==>
                  && root == Some(Child(RootHash(peer), total)) && total <= LIMIT
                  && AllClaimed(queue) && asked[0] == ROOT
                  && peer.answer(0, ROOT).Node? && peer.answer(0, ROOT).summary.Some?
      invariant honest ==> Mirrors(h, remote, local, records, asked, queue, queue)
      invariant asked == [] ==> records == map[]
      invariant same && asked != [] ==> asked == [ROOT] && queue == [] && records == local
      invariant honest && asked != [] ==> Child(RootHash(peer), total) == Claim(h, remote, ROOT) && total == |remote|
      decreases LIMIT - |asked|
    {
      var x, rest := queue[0], queue[1..];
      assert queue == [x] + rest;
      // the query counter stays within the limit, so its check cannot fail
      assert |asked| + 1 <= LIMIT;
      AskedDistinct(records, asked, queue, total);
      PrefixOrder(records, asked, x, rest, total);
      if honest {
        MirrorsHead(h, remote, local, records, asked, x, rest);
        HonestAnswer(h, remote, peer, x, |asked|);
      }
      var answer := AskNode(peer, x, |asked|);
      if answer.Err? {
        return Err(answer.error), asked;
      }
      var s := answer.value;
      SummaryCount(s);
      if x.prefix == ROOT {
        root := Some(Child(s.hash, s.count));
      }
      var taken := TakeNode(h, local, x, s, records, rest, |asked| + 1, asked, total, remote, honest);
      if taken.Err? {
        return Err(QueryLimit), asked;
      }
      records, queue := taken.value.0, taken.value.1;
      asked := asked + [x.prefix];
    }
    AskedDistinct(records, asked, queue, total);
    if honest { HonestFinishes(h, remote, peer); }
    if !peer.finishes {
      return Err(PeerRefused), asked;
    }
    SoundEnd(records, asked, total);
    if honest { HonestEnd(h, remote, local, records, asked, total); }
    NothingWanted(local);
    if CollisionFree(h) { RootDigestIdentifies(h, remote, records); }
    r := Seal(h, records, root.value, |asked|);
  }

  function RootHash(peer: Peer): Hash {
    match peer.answer(0, ROOT)
    case Node(Some(s)) => s.hash
    case _ => 0
  }

  /** After the first query the root is never pending again. */
  lemma PrefixOrder(records: Records, asked: seq<WirePath>, x: Pending, rest: seq<Pending>, total: nat)
    requires Sound(records, asked, [x] + rest, total)
    ensures asked != [] && asked[0] == ROOT ==> x.prefix != ROOT
  {
    assert ([x] + rest)[0] == x;
    assert forall p :: Within(ROOT, p);
    if asked != [] { assert Clear([x] + rest, asked[0]); }
  }

  lemma MirrorsHead(h: Hasher, remote: Records, local: Records, records: Records, asked: seq<WirePath>,
                    x: Pending, rest: seq<Pending>)
    requires Mirrors(h, remote, local, records, asked, [x] + rest, [x] + rest)
    ensures HasNode(remote, x.prefix) && (x.expected.Some? ==> x.expected.value == Claim(h, remote, x.prefix))
  {
    ClaimOf(h, remote, records, x, rest);
  }

  lemma SoundEnd(records: Records, asked: seq<WirePath>, total: nat)
    requires Sound(records, asked, [], total)
    ensures |records| == total
  {
  }

  lemma HonestFinishes(h: Hasher, remote: Records, peer: Peer)
    requires HonestPeer(h, remote, peer)
    ensures peer.finishes
  {
  }

  lemma NothingWanted(local: Records)
    ensures Wanted(local, local) == {}
  {
  }

  lemma EmptyIsWellKeyed()
    ensures WellKeyed(map[])
  {
  }

  lemma AskedDistinct(records: Records, asked: seq<WirePath>, f: seq<Pending>, total: nat)
    requires Sound(records, asked, f, total)
    ensures forall i, j :: 0 <= i < j < |asked| ==> asked[i] != asked[j]
  {
  }
}
