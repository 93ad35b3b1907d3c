/** The persistent local index: what a scan, a direct push and a peer adoption do to the
    path records and to the replica counter. */
module Index {
  import opened Core

  datatype Identity = Identity(namespace: nat, object: nat)

  /** One observed filesystem object, after hashing. */
  datatype Entry = Entry(
    kind: Kind,
    identity: Option<Identity>,
    size: nat,
    modified: Option<nat>,
    readonly: bool,
    contentHash: Option<Hash>)
  {
    function ToRecord(path: WirePath, version: VersionVector, generation: nat): PathRecord {
      PathRecord(path, kind, identity, size, modified, readonly, contentHash, version, false, generation)
    }
  }

  datatype PathRecord = PathRecord(
    path: WirePath,
    kind: Kind,
    identity: Option<Identity>,
    size: nat,
    modified: Option<nat>,
    readonly: bool,
    contentHash: Option<Hash>,
    version: VersionVector,
    tombstone: bool,
    generation: nat)
  {
    function ToSync(): SyncRecord {
      SyncRecord(path, kind, size, contentHash, readonly, version, tombstone)
    }

    predicate Matches(e: Entry) {
      && kind == e.kind
      && identity == e.identity
      && size == e.size
      && modified == e.modified
      && readonly == e.readonly
      && contentHash == e.contentHash
    }

    function Buried(v: VersionVector, g: nat): PathRecord {
      this.(version := v, tombstone := true, generation := g)
    }
  }

  type Records = map<WirePath, PathRecord>

  /** What one traversal established. `preserved` and `uncertain` hold the paths and the
      directory prefixes about which nothing may be concluded. */
  datatype Observation = Observation(
    current: map<WirePath, Entry>,
    preserved: set<WirePath>,
    uncertain: set<WirePath>,
    preserveAll: bool)
  {
    predicate Preserves(path: WirePath) {
      preserveAll || path in preserved || exists prefix :: prefix in uncertain && Within(prefix, path)
    }
  }

  datatype IndexState = IndexState(records: Records, counter: nat, generation: nat)

  datatype Change =
    | Created(path: WirePath)
    | Modified(path: WirePath)
    | Deleted(path: WirePath)
    | Renamed(from: WirePath, to: WirePath)
  {
    /** The path the change is reported for. */
    function Primary(): WirePath {
      if Renamed? then to else path
    }
  }

  datatype Report = Report(generation: nat, same: nat, changes: seq<Change>)

  datatype Error = GenerationOverflow | CounterOverflow | AdvancesLocalCounter | NotMaterialized
                 | Stale | ConcurrentEdit | ReusedVersion | InvalidRecord

  // ---------------------------------------------------------------- classification

  /** A live record whose object is gone, with nothing excusing its absence. */
  predicate Missing(prev: Records, obs: Observation, p: WirePath) {
    p in prev && !prev[p].tombstone && p !in obs.current && !obs.Preserves(p)
  }

  predicate Unchanged(prev: Records, obs: Observation, p: WirePath) {
    p in obs.current && p in prev && !prev[p].tombstone && prev[p].Matches(obs.current[p])
  }

  type RenameKey = (Kind, Identity)

  /** Vanished paths whose object could reappear elsewhere, with kind and identity. */
  function OldKeys(prev: Records, obs: Observation): map<WirePath, RenameKey> {
    map p | p in prev && Missing(prev, obs, p) && prev[p].identity.Some? :: (prev[p].kind, prev[p].identity.value)
  }

  /** Observed paths that were not live before, with kind and identity. */
  function NewKeys(prev: Records, obs: Observation): map<WirePath, RenameKey> {
    map p | p in obs.current && !(p in prev && !prev[p].tombstone) && obs.current[p].identity.Some? ::
      (obs.current[p].kind, obs.current[p].identity.value)
  }

  /** `p` is the only path with its key. */
  ghost predicate Sole(keys: map<WirePath, RenameKey>, p: WirePath) {
    p in keys && forall q :: q in keys && keys[q] == keys[p] ==> q == p
  }

  /** `f` was renamed to `t`: each is the only candidate with their common identity, and
      nothing but the path differs. */
  ghost predicate RenamePair(prev: Records, obs: Observation, f: WirePath, t: WirePath) {
    && Sole(OldKeys(prev, obs), f)
    && Sole(NewKeys(prev, obs), t)
    && prev[f].Matches(obs.current[t])
  }

  /** Detected renames: the old path of each new one, and back. */
  datatype Renames = Renames(source: map<WirePath, WirePath>, target: map<WirePath, WirePath>)
  {
    /** The path whose clock a change of `p` continues. */
    function Source(p: WirePath): WirePath {
      if p in source then source[p] else p
    }
  }

  ghost predicate IsRenameMap(prev: Records, obs: Observation, source: map<WirePath, WirePath>) {
    && (forall t :: t in source ==> RenamePair(prev, obs, source[t], t))
    && (forall f, t :: RenamePair(prev, obs, f, t) ==> t in source && source[t] == f)
  }

  /** What the scan relies on: the two maps are inverse, targets were observed and are new,
      sources are gone. */
  ghost predicate RenamesFit(prev: Records, obs: Observation, m: Renames) {
    && (forall t :: t in m.source ==>
          t in obs.current && !Unchanged(prev, obs, t) && t !in m.target && m.source[t] in m.target && m.target[m.source[t]] == t)
    && (forall f :: f in m.target ==>
          f in prev && f !in obs.current && Missing(prev, obs, f) && f !in m.source && m.target[f] in m.source && m.source[m.target[f]] == f)
  }

  lemma RenamesInvert(prev: Records, obs: Observation, m: Renames)
    requires RenamesFit(prev, obs, m)
    ensures forall f :: f in m.target ==> m.target[f] in m.source && m.source[m.target[f]] == f && f !in m.source
    ensures forall t :: t in m.source ==> m.source[t] in m.target && m.target[m.source[t]] == t
    ensures forall t :: t in m.source ==> t in obs.current && t !in m.target && !Unchanged(prev, obs, t)
    ensures forall f :: f in m.target ==> f in prev && f !in obs.current
  {
    hide Missing, Unchanged;
  }

  /** The rename map does not depend on the order in which the identities were visited. */
  lemma RenameMapIsUnique(prev: Records, obs: Observation, m: map<WirePath, WirePath>, n: map<WirePath, WirePath>)
    requires IsRenameMap(prev, obs, m) && IsRenameMap(prev, obs, n)
    ensures m == n
  {
    forall t | t in m ensures t in n && m[t] == n[t] {
      assert RenamePair(prev, obs, m[t], t);
    }
    forall t | t in n ensures t in m {
      assert RenamePair(prev, obs, n[t], t);
    }
  }

  /** No two targets share a source. */
  lemma RenamesAreInjective(prev: Records, obs: Observation, m: map<WirePath, WirePath>, t: WirePath, u: WirePath)
    requires IsRenameMap(prev, obs, m) && t in m && u in m && m[t] == m[u]
    ensures t == u
  {
    assert RenamePair(prev, obs, m[t], t) && RenamePair(prev, obs, m[u], u);
    assert NewKeys(prev, obs)[t] == OldKeys(prev, obs)[m[t]] == NewKeys(prev, obs)[u];
  }

  /** Each group holds exactly the paths with its key, once each. */
  ghost predicate Grouped(keys: map<WirePath, RenameKey>, groups: map<RenameKey, seq<WirePath>>) {
    && (forall k, i :: k in groups && 0 <= i < |groups[k]| ==> groups[k][i] in keys && keys[groups[k][i]] == k)
    && (forall k, i, j :: k in groups && 0 <= i < j < |groups[k]| ==> groups[k][i] != groups[k][j])
    && (forall p :: p in keys ==> keys[p] in groups && p in groups[keys[p]])
  }

  lemma GroupOne(keys: map<WirePath, RenameKey>, groups: map<RenameKey, seq<WirePath>>, p: WirePath, k: RenameKey)
    requires Grouped(keys, groups) && p !in keys
    ensures Grouped(keys[p := k], groups[k := (if k in groups then groups[k] else []) + [p]])
  {
    var groups' := groups[k := (if k in groups then groups[k] else []) + [p]];
    var keys' := keys[p := k];
    forall q | q in keys' ensures keys'[q] in groups' && q in groups'[keys'[q]] {
      if q == p { assert groups'[k][|groups'[k]| - 1] == p; } else { assert q in groups[keys[q]]; }
    }
  }

  method GroupByKey(keys: map<WirePath, RenameKey>) returns (groups: map<RenameKey, seq<WirePath>>)
    ensures Grouped(keys, groups)
    ensures forall k :: k in groups ==> groups[k] != []
  {
    groups := map[];
    ghost var done: map<WirePath, RenameKey> := map[];
    assert Grouped(done, groups);
    hide Grouped;
    var todo := keys.Keys;
    while todo != {}
      invariant todo <= keys.Keys
      invariant done == map p | p in keys && p !in todo :: keys[p]
      invariant Grouped(done, groups)
      invariant forall k :: k in groups ==> groups[k] != []
    {
      var p :| p in todo;
      var k := keys[p];
      GroupOne(done, groups, p, k);
      groups := groups[k := (if k in groups then groups[k] else []) + [p]];
      todo, done := todo - {p}, done[p := k];
    }
    assert done == keys;
  }

  /** A path is alone with its key exactly when its group has one member. */
  lemma SoleIffSingleton(keys: map<WirePath, RenameKey>, groups: map<RenameKey, seq<WirePath>>, p: WirePath)
    requires Grouped(keys, groups) && p in keys
    ensures Sole(keys, p) <==> groups[keys[p]] == [p]
  {
    var g := groups[keys[p]];
    assert p in g;
    assert Sole(keys, p) ==> forall i :: 0 <= i < |g| ==> g[i] == p;
    assert |g| >= 2 ==> g[0] != g[1];
    if g == [p] {
      forall q | q in keys && keys[q] == keys[p] ensures q == p { assert q in g; }
    }
  }

  lemma RenamePairsFit(prev: Records, obs: Observation, m: Renames)
    requires forall t :: t in m.source ==> RenamePair(prev, obs, m.source[t], t)
    requires forall t :: t in m.source ==> m.source[t] in m.target && m.target[m.source[t]] == t
    requires forall f :: f in m.target ==> m.target[f] in m.source && m.source[m.target[f]] == f
    ensures RenamesFit(prev, obs, m)
  {
    forall t | t in m.source ensures t in obs.current && !Unchanged(prev, obs, t) && Missing(prev, obs, m.source[t]) {
      assert RenamePair(prev, obs, m.source[t], t);
    }
  }

  /** The renames found after visiting every key outside `todo`. */
  ghost predicate Correlated(prev: Records, obs: Observation, todo: set<RenameKey>, m: Renames) {
    && (forall t :: t in m.source ==> RenamePair(prev, obs, m.source[t], t))
    && (forall f, t :: RenamePair(prev, obs, f, t) && OldKeys(prev, obs)[f] !in todo ==> t in m.source && m.source[t] == f)
    && (forall t :: t in m.source ==> m.source[t] in m.target && m.target[m.source[t]] == t)
    && (forall f :: f in m.target ==> m.target[f] in m.source && m.source[m.target[f]] == f && OldKeys(prev, obs)[f] !in todo)
  }

  lemma CorrelateHit(prev: Records, obs: Observation, todo: set<RenameKey>, m: Renames, f: WirePath, t: WirePath)
    requires Correlated(prev, obs, todo, m)
    requires RenamePair(prev, obs, f, t) && OldKeys(prev, obs)[f] in todo
    ensures Correlated(prev, obs, todo - {OldKeys(prev, obs)[f]}, Renames(m.source[t := f], m.target[f := t]))
  {
    hide OldKeys, NewKeys, RenamePair;
    assert t !in m.source by {
      if t in m.source { RenameSourcesAgree(prev, obs, m.source[t], f, t); }
    }
    RenamePairsAgree(prev, obs, f, t);
  }

  lemma RenamePairsAgree(prev: Records, obs: Observation, f: WirePath, t: WirePath)
    requires RenamePair(prev, obs, f, t)
    ensures f in OldKeys(prev, obs)
    ensures forall g, u :: RenamePair(prev, obs, g, u) && OldKeys(prev, obs)[g] == OldKeys(prev, obs)[f] ==> g == f && u == t
  {
    forall g, u | RenamePair(prev, obs, g, u) && OldKeys(prev, obs)[g] == OldKeys(prev, obs)[f] ensures g == f && u == t {
      assert NewKeys(prev, obs)[t] == OldKeys(prev, obs)[f] == NewKeys(prev, obs)[u];
    }
  }

  lemma RenameSourcesAgree(prev: Records, obs: Observation, f: WirePath, g: WirePath, t: WirePath)
    requires RenamePair(prev, obs, f, t) && RenamePair(prev, obs, g, t)
    ensures f == g
  {
    assert NewKeys(prev, obs)[t] == OldKeys(prev, obs)[f] == OldKeys(prev, obs)[g];
  }

  lemma CorrelateMiss(prev: Records, obs: Observation, todo: set<RenameKey>, m: Renames, k: RenameKey)
    requires Correlated(prev, obs, todo, m)
    requires forall f, t :: RenamePair(prev, obs, f, t) ==> OldKeys(prev, obs)[f] != k
    ensures Correlated(prev, obs, todo - {k}, m)
  {
    hide OldKeys, NewKeys, RenamePair;
  }

  /** Groups of one are exactly where a rename can be. */
  lemma PairsAreSingletons(prev: Records, obs: Observation, oldBy: map<RenameKey, seq<WirePath>>,
                           newBy: map<RenameKey, seq<WirePath>>, f: WirePath, t: WirePath)
    requires Grouped(OldKeys(prev, obs), oldBy) && Grouped(NewKeys(prev, obs), newBy)
    requires f in OldKeys(prev, obs) && t in NewKeys(prev, obs)
    ensures RenamePair(prev, obs, f, t) <==>
              && OldKeys(prev, obs)[f] in newBy
              && oldBy[OldKeys(prev, obs)[f]] == [f]
              && newBy[OldKeys(prev, obs)[f]] == [t]
              && prev[f].Matches(obs.current[t])
  {
    SoleIffSingleton(OldKeys(prev, obs), oldBy, f);
    SoleIffSingleton(NewKeys(prev, obs), newBy, t);
    if newBy[NewKeys(prev, obs)[t]] == [t] { assert newBy[NewKeys(prev, obs)[t]][0] == t; }
  }

  method CorrelateRenames(prev: Records, obs: Observation) returns (m: Renames)
    ensures IsRenameMap(prev, obs, m.source)
    ensures RenamesFit(prev, obs, m)
  {
    var oldKeys, newKeys := OldKeys(prev, obs), NewKeys(prev, obs);
    var oldBy := GroupByKey(oldKeys);
    var newBy := GroupByKey(newKeys);
    m := Renames(map[], map[]);
    var todo := oldBy.Keys;
    assert Correlated(prev, obs, todo, m);
    hide Correlated, Missing, RenamesFit, RenamePair;
    while todo != {}
      invariant todo <= oldBy.Keys
      invariant Correlated(prev, obs, todo, m)
    {
      var k :| k in todo;
      forall f, t | RenamePair(prev, obs, f, t) && oldKeys[f] == k
        ensures k in newBy && oldBy[k] == [f] && newBy[k] == [t] && prev[f].Matches(obs.current[t])
      {
        PairFacts(prev, obs, f, t);
        PairsAreSingletons(prev, obs, oldBy, newBy, f, t);
      }
      if k in newBy && |oldBy[k]| == 1 && |newBy[k]| == 1 && prev[oldBy[k][0]].Matches(obs.current[newBy[k][0]]) {
        var f, t := oldBy[k][0], newBy[k][0];
        PairsAreSingletons(prev, obs, oldBy, newBy, f, t);
        CorrelateHit(prev, obs, todo, m, f, t);
        m := Renames(m.source[t := f], m.target[f := t]);
      } else {
        CorrelateMiss(prev, obs, todo, m, k);
      }
      todo := todo - {k};
    }
    CorrelationDone(prev, obs, m);
  }

  lemma PairFacts(prev: Records, obs: Observation, f: WirePath, t: WirePath)
    requires RenamePair(prev, obs, f, t)
    ensures f in OldKeys(prev, obs) && t in NewKeys(prev, obs)
  {
  }

  lemma CorrelationDone(prev: Records, obs: Observation, m: Renames)
    requires Correlated(prev, obs, {}, m)
    ensures IsRenameMap(prev, obs, m.source) && RenamesFit(prev, obs, m)
  {
    hide RenamePair, RenamesFit;
    RenamePairsFit(prev, obs, m);
  }

  // ---------------------------------------------------------------- what a scan commits

  /** A change is reported for `p`: observed and different, or gone and not moved. */
  predicate Primary(prev: Records, obs: Observation, m: Renames, p: WirePath) {
    if p in obs.current then !Unchanged(prev, obs, p) else Missing(prev, obs, p) && p !in m.target
  }

  /** The observed paths a change is reported for. */
  function Differing(prev: Records, obs: Observation): set<WirePath> {
    set p | p in obs.current && !Unchanged(prev, obs, p)
  }

  function Primaries(prev: Records, obs: Observation, m: Renames): set<WirePath> {
    set p | p in obs.current.Keys + prev.Keys && Primary(prev, obs, m, p)
  }

  function ChangeFor(prev: Records, obs: Observation, m: Renames, p: WirePath): Change {
    if p !in obs.current then Deleted(p)
    else if p in m.source then Renamed(m.source[p], p)
    else if p in prev && !prev[p].tombstone then Modified(p)
    else Created(p)
  }

  /** The report of a plan, in the order in which it was carried out. */
  function ChangesFor(prev: Records, obs: Observation, m: Renames, plan: seq<WirePath>): seq<Change> {
    seq(|plan|, i requires 0 <= i < |plan| => ChangeFor(prev, obs, m, plan[i]))
  }

  function VersionAt(records: Records, p: WirePath): VersionVector {
    if p in records then records[p].version else map[]
  }

  /** The row an authoring event writes for `p`: the observed entry, or a tombstone over the old
      row, under the clock of `source` advanced to `counter`. */
  function Authored(me: ReplicaId, prev: Records, obs: Observation, generation: nat,
                    p: WirePath, source: WirePath, counter: nat): PathRecord
    requires p in obs.current || p in prev
  {
    var version := Observe(VersionAt(prev, source), me, counter);
    if p in obs.current then obs.current[p].ToRecord(p, version, generation) else prev[p].Buried(version, generation)
  }

  /** `plan` may be carried out: distinct paths that call for a change. */
  ghost predicate IsPlan(prev: Records, obs: Observation, m: Renames, plan: seq<WirePath>) {
    && Distinct(plan)
    && (forall i :: 0 <= i < |plan| ==> (plan[i] in obs.current || plan[i] in prev) && Primary(prev, obs, m, plan[i]))
  }

  /** The plan leaves no path out that calls for a change. */
  ghost predicate Exhausted(prev: Records, obs: Observation, m: Renames, plan: seq<WirePath>) {
    && (forall p :: p in obs.current && Primary(prev, obs, m, p) ==> p in plan)
    && (forall p :: p in prev && p !in obs.current && Primary(prev, obs, m, p) ==> p in plan)
  }

  /** `p` is written by the plan, itself or as the old name of a rename. */
  predicate Touched(m: Renames, plan: seq<WirePath>, p: WirePath) {
    p in plan || (p in m.target && m.target[p] in plan)
  }

  /** `next` is `prev` after the plan: the `i`-th change spends the `i`-th new counter value, a
      rename spends it on both of its paths, and nothing else moves. */
  ghost predicate Carried(me: ReplicaId, prev: Records, obs: Observation, m: Renames, counter: nat, generation: nat,
                          plan: seq<WirePath>, next: Records)
  {
    && (forall p :: p in prev ==> p in next)
    && (forall p :: p in next ==> p in prev || p in plan)
    && (forall i :: 0 <= i < |plan| ==>
          && (plan[i] in obs.current || plan[i] in prev) && plan[i] in next
          && next[plan[i]] == Authored(me, prev, obs, generation, plan[i], m.Source(plan[i]), counter + 1 + i))
    && (forall i :: 0 <= i < |plan| && plan[i] in m.source ==>
          && m.source[plan[i]] in prev
          && next[m.source[plan[i]]] == Authored(me, prev, obs, generation, m.source[plan[i]], m.source[plan[i]], counter + 1 + i))
    && (forall p :: p in prev && !Touched(m, plan, p) ==> next[p] == prev[p])
  }

  /** The complete effect of a scan. */
  ghost predicate ScanOutcome(me: ReplicaId, pre: IndexState, obs: Observation, m: Renames, plan: seq<WirePath>, post: IndexState) {
    && IsRenameMap(pre.records, obs, m.source)
    && RenamesFit(pre.records, obs, m)
    && IsPlan(pre.records, obs, m, plan)
    && Exhausted(pre.records, obs, m, plan)
    && Carried(me, pre.records, obs, m, pre.counter, pre.generation + 1, plan, post.records)
    && post.counter == pre.counter + |plan|
    && post.generation == pre.generation + 1
  }

  /** What every operation keeps: rows are stored under their own path, and no row knows more
      about this replica than the durable counter does. */
  ghost predicate Coherent(me: ReplicaId, s: IndexState) {
    && s.counter <= U64_MAX
    && s.generation <= U64_MAX
    && (forall p :: p in s.records ==> s.records[p].path == p && Get(s.records[p].version, me) <= s.counter)
  }

  // ---------------------------------------------------------------- adoption and direct push

  /** What a traversal can report: only regular files carry size, time, permissions and content. */
  predicate Normal(e: Entry) {
    if e.kind == File then e.contentHash.Some?
    else e.size == 0 && e.modified.None? && !e.readonly && e.contentHash.None?
  }

  /** `verify_adopted_record`, given what is on disk at the path. */
  function VerifyAdopted(records: Records, record: SyncRecord, disk: Option<Entry>, generation: nat): Result<PathRecord, Error> {
    if record.tombstone then
      if disk.Some? then Err(NotMaterialized)
      else
        var (identity, modified) :=
          if record.path in records then (records[record.path].identity, records[record.path].modified) else (None, None);
        Ok(PathRecord(record.path, record.kind, identity, record.size, modified, record.readonly,
                      record.contentHash, record.version, true, generation))
    else if disk.None? || disk.value.kind != record.kind || disk.value.readonly != record.readonly then Err(NotMaterialized)
    else if record.kind == File && (disk.value.size != record.size || disk.value.contentHash != record.contentHash) then
      Err(NotMaterialized)
    else Ok(disk.value.ToRecord(record.path, record.version, generation))
  }

  /** A record is adopted as received or not at all. */
  lemma AdoptionIsExact(records: Records, record: SyncRecord, disk: Option<Entry>, generation: nat)
    requires record.Valid() && (disk.Some? ==> Normal(disk.value))
    ensures var r := VerifyAdopted(records, record, disk, generation);
            && (r.Ok? ==> r.value.ToSync() == record)
            && (r.Ok? <==> Shown(record, disk))
            && (r.Ok? && record.tombstone && record.path in records ==>
                  r.value.identity == records[record.path].identity && r.value.modified == records[record.path].modified)
            && (r.Ok? && !record.tombstone ==> r.value.identity == disk.value.identity && r.value.modified == disk.value.modified)
  {
  }

  /** The disk shows what the record says: nothing for a tombstone, and otherwise the same object in
      every portable respect. */
  predicate Shown(record: SyncRecord, disk: Option<Entry>) {
    if record.tombstone then disk.None?
    else
      && disk.Some?
      && record == SyncRecord(record.path, disk.value.kind, disk.value.size, disk.value.contentHash, disk.value.readonly, record.version, false)
  }

  /** `ensure_index_causally_applicable`. */
  ghost predicate Applicable(me: ReplicaId, s: IndexState, incoming: SyncRecord) {
    && Get(incoming.version, me) <= s.counter
    && (incoming.path in s.records ==>
          var current := s.records[incoming.path].ToSync();
          || Relation(current.version, incoming.version) == Before
          || (Relation(current.version, incoming.version) == Equal && current.SameState(incoming)))
  }

  ghost predicate AdoptOutcome(pre: IndexState, record: SyncRecord, post: IndexState) {
    && record.path in post.records
    && post.records == pre.records[record.path := post.records[record.path]]
    && post.records[record.path].ToSync() == record
    && post.counter == pre.counter
    && post.generation == pre.generation + 1
  }

  ghost predicate PushOutcome(me: ReplicaId, pre: IndexState, path: WirePath, entry: Entry, post: IndexState) {
    && post.records == pre.records[path := entry.ToRecord(path, Observe(VersionAt(pre.records, path), me, pre.counter + 1),
                                                          pre.generation + 1)]
    && post.counter == pre.counter + 1
    && post.generation == pre.generation + 1
  }

  /** `next_replica_counter`, checked. */
  function NextCounter(global: nat, version: VersionVector, me: ReplicaId): Result<nat, Error> {
    var c := Max(global, Get(version, me));
    if c + 1 <= U64_MAX then Ok(c + 1) else Err(CounterOverflow)
  }

  class LocalIndex {
    const replica: ReplicaId
    var records: Records
    var counter: nat
    var generation: nat

    ghost function State(): IndexState
      reads this
    {
      IndexState(records, counter, generation)
    }

    ghost predicate Valid()
      reads this
    {
      Coherent(replica, State())
    }

    constructor (me: ReplicaId)
      ensures Valid() && replica == me && State() == IndexState(map[], 0, 0)
    {
      replica, records, counter, generation := me, map[], 0, 0;
    }

    /** The causal decision over the stored row. */
    method EnsureApplicable(incoming: SyncRecord) returns (r: Result<(), Error>)
      ensures r.Ok? <==> Applicable(replica, State(), incoming)
      ensures r == if Get(incoming.version, replica) > counter then Err(AdvancesLocalCounter)
                   else if incoming.path !in records then Ok(())
                   else
                     match Relation(records[incoming.path].version, incoming.version)
                     case Before => Ok(())
                     case Equal =>
                       if records[incoming.path].ToSync().(version := incoming.version) == incoming then Ok(()) else Err(ReusedVersion)
                     case After => Err(Stale)
                     case Concurrent => Err(ConcurrentEdit)
    {
      if Get(incoming.version, replica) > counter {
        return Err(AdvancesLocalCounter);
      }
      if incoming.path !in records {
        return Ok(());
      }
      var current := records[incoming.path].ToSync();
      var relation := ComputeRelation(current.version, incoming.version);
      match relation {
        case Before => return Ok(());
        case Equal => return if current.SameState(incoming) then Ok(()) else Err(ReusedVersion);
        case After => return Err(Stale);
        case Concurrent => return Err(ConcurrentEdit);
      }
    }

    /** `commit_remote_record`, with `disk` what is materialised at the path. */
    method CommitRemote(record: SyncRecord, disk: Option<Entry>) returns (r: Result<(), Error>)
      requires Valid() && (disk.Some? ==> Normal(disk.value))
      modifies this
      ensures Valid()
      ensures r.Err? ==> State() == old(State())
      ensures r.Ok? ==> AdoptOutcome(old(State()), record, State())
      ensures r.Ok? <==> && record.Valid() && Get(record.version, replica) <= old(counter) && old(generation) < U64_MAX
                         && VerifyAdopted(old(records), record, disk, old(generation) + 1).Ok?
      ensures r.Ok? <==> && record.Valid() && Get(record.version, replica) <= old(counter) && old(generation) < U64_MAX
                         && Shown(record, disk)
      ensures r == Err(InvalidRecord) <==>
              !record.tombstone && (if record.kind == File then record.contentHash.None? else record.size != 0 || record.contentHash.Some?)
      ensures r.Ok? && !record.tombstone ==>
                records[record.path].identity == disk.value.identity && records[record.path].modified == disk.value.modified
      ensures r.Ok? ==> records[record.path].generation == generation
    {
      if !record.Valid() {
        return Err(InvalidRecord);
      }
      if Get(record.version, replica) > counter {
        return Err(AdvancesLocalCounter);
      }
      if generation + 1 > U64_MAX {
        return Err(GenerationOverflow);
      }
      var adopted := VerifyAdopted(records, record, disk, generation + 1);
      AdoptionIsExact(records, record, disk, generation + 1);
      if adopted.Err? {
        return Err(adopted.error);
      }
      records := records[record.path := adopted.value];
      counter := Max(counter, Get(record.version, replica));
      generation := generation + 1;
      r := Ok(());
    }

    /** A peer push or metadata message: causal check, then adoption, under the apply lock. */
    method Receive(incoming: SyncRecord, disk: Option<Entry>) returns (r: Result<(), Error>)
      requires Valid() && (disk.Some? ==> Normal(disk.value))
      modifies this
      ensures Valid()
      ensures r.Err? ==> State() == old(State())
      ensures r.Ok? ==> AdoptOutcome(old(State()), incoming, State())
      ensures r.Ok? <==> && Applicable(replica, old(State()), incoming) && incoming.Valid() && old(generation) < U64_MAX
                         && Shown(incoming, disk)
    {
      r := EnsureApplicable(incoming);
      if r.Ok? {
        r := CommitRemote(incoming, disk);
      }
    }

    /** `adopt_materialized_file`: a direct push becomes a local event on the path, provided the
        file is still what the push observed when it wrote it. */
    method AdoptMaterialized(path: WirePath, observed: Entry, disk: Option<Entry>) returns (r: Result<(), Error>)
      requires Valid() && Normal(observed) && observed.kind == File && (disk.Some? ==> Normal(disk.value))
      modifies this
      ensures Valid()
      ensures r.Err? ==> State() == old(State())
      ensures r.Ok? ==> disk.Some? && PushOutcome(replica, old(State()), path, disk.value, State())
      ensures r.Ok? <==> && old(counter) < U64_MAX && old(generation) < U64_MAX
                         && disk.Some? && disk.value.(identity := observed.identity, modified := observed.modified) == observed
    {
      var version := VersionAt(records, path);
      var c := NextCounter(counter, version, replica);
      if c.Err? {
        return Err(c.error);
      }
      if generation + 1 > U64_MAX {
        return Err(GenerationOverflow);
      }
      version := Observe(version, replica, c.value);
      var record := SyncRecord(path, File, observed.size, observed.contentHash, observed.readonly, version, false);
      var adopted := VerifyAdopted(records, record, disk, generation + 1);
      if adopted.Err? {
        return Err(adopted.error);
      }
      records := records[path := adopted.value];
      counter := Max(counter, Get(version, replica));
      generation := generation + 1;
      r := Ok(());
    }

    /** `apply_scan`: fails only on overflow, and then leaves the index as it was. */
    method ApplyScan(obs: Observation) returns (r: Result<Report, Error>, ghost m: Renames, ghost plan: seq<WirePath>)
      requires Valid()
      modifies this
      ensures Valid()
      ensures IsRenameMap(old(records), obs, m.source)
      ensures r.Ok? <==> old(generation) < U64_MAX && old(counter) + |Primaries(old(records), obs, m)| <= U64_MAX
      ensures r.Err? ==> State() == old(State())
      ensures r.Ok? ==> ScanOutcome(replica, old(State()), obs, m, plan, State())
      ensures r.Ok? ==> r.value.changes == ChangesFor(old(records), obs, m, plan)
      ensures r.Ok? ==> r.value.generation == generation
      ensures r.Ok? ==> r.value.same + |Differing(old(records), obs)| == |obs.current|
    {
      hide Stamping, RenamesFit, IsRenameMap, Primary, Primaries, Differing;
      var renames := CorrelateRenames(records, obs);
      m, plan := renames, [];
      if generation + 1 > U64_MAX {
        return Err(GenerationOverflow), m, plan;
      }
      var ok, next, changes, same;
      ok, next, changes, same, plan := StampObserved(replica, records, counter, generation + 1, obs, renames);
      if !ok {
        return Err(CounterOverflow), m, plan;
      }
      ObservedCount(replica, records, obs, m, counter, generation + 1, plan, changes, next);
      ok, next, changes, plan := StampMissing(replica, records, counter, generation + 1, obs, renames, next, changes, plan);
      if !ok {
        return Err(CounterOverflow), m, plan;
      }
      StampingSize(replica, records, obs, m, counter, generation + 1, plan, changes, next);
      ghost var post := IndexState(next, counter + |changes|, generation + 1);
      ScanIsComplete(replica, State(), obs, m, plan, changes, post);
      records, counter, generation := next, counter + |changes|, generation + 1;
      r := Ok(Report(generation, same, changes));
    }
  }

  lemma ObservedCount(me: ReplicaId, prev: Records, obs: Observation, m: Renames, counter: nat, generation: nat,
                      plan: seq<WirePath>, changes: seq<Change>, next: Records)
    requires Stamping(me, prev, obs, m, counter, generation, plan, changes, next)
    requires forall i :: 0 <= i < |plan| ==> plan[i] in obs.current
    requires forall p :: p in obs.current && Primary(prev, obs, m, p) ==> p in plan
    ensures |plan| == |Differing(prev, obs)|
  {
    hide Carried, ChangesFor;
    DistinctSize(plan, Differing(prev, obs));
  }

  lemma ScanIsComplete(me: ReplicaId, pre: IndexState, obs: Observation, m: Renames, plan: seq<WirePath>,
                       changes: seq<Change>, post: IndexState)
    requires Coherent(me, pre)
    requires IsRenameMap(pre.records, obs, m.source) && RenamesFit(pre.records, obs, m)
    requires Stamping(me, pre.records, obs, m, pre.counter, pre.generation + 1, plan, changes, post.records)
    requires Exhausted(pre.records, obs, m, plan)
    requires post.counter == pre.counter + |plan| && post.generation == pre.generation + 1 <= U64_MAX
    ensures ScanOutcome(me, pre, obs, m, plan, post) && Coherent(me, post)
    ensures changes == ChangesFor(pre.records, obs, m, plan)
  {
    hide Carried, IsRenameMap, RenamesFit, IsPlan, Primary, Coherent;
    RenamesInvert(pre.records, obs, m);
    RowsStayCoherent(me, pre, obs, m, plan, post);
  }

  /** An authored row sits under its own path and knows no more of this replica than its event. */
  lemma AuthoredFacts(me: ReplicaId, pre: IndexState, obs: Observation, generation: nat, p: WirePath, source: WirePath, counter: nat)
    requires Coherent(me, pre) && pre.counter < counter && (p in obs.current || p in pre.records)
    ensures var r := Authored(me, pre.records, obs, generation, p, source, counter);
            && r.path == p
            && Get(r.version, me) == counter
            && forall x :: x != me ==> Get(r.version, x) == Get(VersionAt(pre.records, source), x)
  {
  }

  /** The row of one path after the plan: authored at some new counter value, or as it was. */
  lemma RowAfter(me: ReplicaId, prev: Records, obs: Observation, m: Renames, counter: nat, generation: nat,
                 plan: seq<WirePath>, next: Records, p: WirePath)
    returns (c: nat)
    requires Carried(me, prev, obs, m, counter, generation, plan, next) && p in next
    requires forall f :: f in m.target ==> m.target[f] in m.source && m.source[m.target[f]] == f && f !in m.source
    ensures Touched(m, plan, p) ==>
              && (p in obs.current || p in prev)
              && counter < c <= counter + |plan|
              && next[p] == Authored(me, prev, obs, generation, p, m.Source(p), c)
              && (plan[c - counter - 1] == p || (p in m.target && plan[c - counter - 1] == m.target[p]))
    ensures !Touched(m, plan, p) ==> p in prev && next[p] == prev[p]
  {
    hide Authored;
    c := 0;
    if p in plan {
      var i :| 0 <= i < |plan| && plan[i] == p;
      c := counter + 1 + i;
    } else if p in m.target && m.target[p] in plan {
      var i :| 0 <= i < |plan| && plan[i] == m.target[p];
      c := counter + 1 + i;
    }
  }

  lemma RowsStayCoherent(me: ReplicaId, pre: IndexState, obs: Observation, m: Renames, plan: seq<WirePath>, post: IndexState)
    requires Coherent(me, pre)
    requires Carried(me, pre.records, obs, m, pre.counter, pre.generation + 1, plan, post.records)
    requires forall f :: f in m.target ==> m.target[f] in m.source && m.source[m.target[f]] == f && f !in m.source
    requires post.counter == pre.counter + |plan| <= U64_MAX && post.generation == pre.generation + 1 <= U64_MAX
    ensures Coherent(me, post)
  {
    hide Carried, Authored, Touched;
    forall p | p in post.records
      ensures post.records[p].path == p && Get(post.records[p].version, me) <= post.counter
    {
      var c := RowAfter(me, pre.records, obs, m, pre.counter, pre.generation + 1, plan, post.records, p);
      if Touched(m, plan, p) {
        AuthoredFacts(me, pre, obs, pre.generation + 1, p, m.Source(p), c);
      }
    }
  }

  lemma PlanSize(prev: Records, obs: Observation, m: Renames, plan: seq<WirePath>)
    requires IsPlan(prev, obs, m, plan)
    ensures |plan| <= |Primaries(prev, obs, m)| && |ChangesFor(prev, obs, m, plan)| == |plan|
    ensures Exhausted(prev, obs, m, plan) ==> |plan| == |Primaries(prev, obs, m)|
  {
    DistinctSize(plan, Primaries(prev, obs, m));
  }

  /** The rows after one change: a rename also buries the old name under the new clock. */
  function Write(me: ReplicaId, prev: Records, obs: Observation, m: Renames, generation: nat, next: Records, p: WirePath, c: nat): Records
    requires p in obs.current || p in prev
    requires p in m.source ==> m.source[p] in prev
  {
    (if p in m.source then next[m.source[p] := Authored(me, prev, obs, generation, m.source[p], m.source[p], c)] else next)
    [p := Authored(me, prev, obs, generation, p, m.Source(p), c)]
  }

  lemma ObservedFacts(prev: Records, obs: Observation, m: Renames, p: WirePath)
    requires RenamesFit(prev, obs, m) && p in obs.current
    ensures Primary(prev, obs, m, p) <==> !Unchanged(prev, obs, p)
    ensures p !in m.target
    ensures p in m.source ==> m.source[p] in prev && m.source[p] !in obs.current
  {
  }

  lemma PreviousFacts(prev: Records, obs: Observation, m: Renames, p: WirePath)
    requires RenamesFit(prev, obs, m) && p in prev
    ensures p !in obs.current ==> p !in m.source
  {
  }

  lemma PlanOne(prev: Records, obs: Observation, m: Renames, plan: seq<WirePath>, p: WirePath)
    requires IsPlan(prev, obs, m, plan) && p !in plan
    requires (p in obs.current || p in prev) && Primary(prev, obs, m, p)
    ensures IsPlan(prev, obs, m, plan + [p])
    ensures ChangesFor(prev, obs, m, plan + [p]) == ChangesFor(prev, obs, m, plan) + [ChangeFor(prev, obs, m, p)]
  {
    hide Primary, ChangeFor;
  }

  /** Carrying out one more change, for a path that the plan does not touch yet. */
  lemma CarryOne(me: ReplicaId, prev: Records, obs: Observation, m: Renames, counter: nat, generation: nat,
                 plan: seq<WirePath>, next: Records, p: WirePath)
    requires forall t :: t in m.source ==> m.source[t] in m.target && m.target[m.source[t]] == t
    requires Carried(me, prev, obs, m, counter, generation, plan, next)
    requires (p in obs.current || p in prev) && p !in plan && p !in m.target
    requires p in m.source ==> m.source[p] in prev && m.source[p] !in plan
    ensures Carried(me, prev, obs, m, counter, generation, plan + [p],
                    Write(me, prev, obs, m, generation, next, p, counter + 1 + |plan|))
  {
    hide Authored;
    var plan' := plan + [p];
    var next' := Write(me, prev, obs, m, generation, next, p, counter + 1 + |plan|);
    assert forall q :: q in plan ==> q in plan';
    assert plan'[|plan|] == p;
    forall i | 0 <= i < |plan'|
      ensures plan'[i] in next' && next'[plan'[i]] == Authored(me, prev, obs, generation, plan'[i], m.Source(plan'[i]), counter + 1 + i)
      ensures plan'[i] in m.source ==>
        next'[m.source[plan'[i]]] == Authored(me, prev, obs, generation, m.source[plan'[i]], m.source[plan'[i]], counter + 1 + i)
    {
      if i < |plan| { assert plan'[i] == plan[i]; }
    }
    forall q | q in prev && !Touched(m, plan', q) ensures next'[q] == prev[q] {
      assert !Touched(m, plan, q);
    }
  }

  /** How far a scan has come: the changes of `plan` are made, listed and within the counter. */
  ghost predicate Stamping(me: ReplicaId, prev: Records, obs: Observation, m: Renames, counter: nat, generation: nat,
                           plan: seq<WirePath>, changes: seq<Change>, next: Records)
  {
    && IsPlan(prev, obs, m, plan)
    && Carried(me, prev, obs, m, counter, generation, plan, next)
    && changes == ChangesFor(prev, obs, m, plan)
    && counter + |plan| <= U64_MAX
  }

  lemma StampNone(me: ReplicaId, prev: Records, obs: Observation, m: Renames, counter: nat, generation: nat)
    requires counter <= U64_MAX
    ensures Stamping(me, prev, obs, m, counter, generation, [], [], prev)
  {
  }

  /** Makes one change, or runs out of counter values. */
  method StampOne(me: ReplicaId, prev: Records, counter: nat, generation: nat, obs: Observation, m: Renames,
                  next0: Records, changes0: seq<Change>, replicaCounter0: nat, ghost plan0: seq<WirePath>, p: WirePath)
    returns (ok: bool, next: Records, changes: seq<Change>, replicaCounter: nat)
    requires forall p :: p in prev ==> Get(prev[p].version, me) <= counter
    requires RenamesFit(prev, obs, m)
    requires Stamping(me, prev, obs, m, counter, generation, plan0, changes0, next0) && replicaCounter0 == counter + |plan0|
    requires (p in obs.current || p in prev) && Primary(prev, obs, m, p) && p !in plan0
    requires p in m.source ==> m.source[p] !in plan0
    ensures !ok ==> counter + |Primaries(prev, obs, m)| > U64_MAX
    ensures ok ==> Stamping(me, prev, obs, m, counter, generation, plan0 + [p], changes, next)
    ensures ok ==> replicaCounter == counter + |plan0 + [p]|
  {
    hide Carried, IsPlan, Primaries, ChangesFor, Write, Missing, Unchanged, RenamesFit;
    RenamesInvert(prev, obs, m);
    next, changes, replicaCounter := next0, changes0, replicaCounter0;
    PlanOne(prev, obs, m, plan0, p);
    var c := NextCounter(replicaCounter, VersionAt(prev, m.Source(p)), me);
    if c.Err? {
      PlanSize(prev, obs, m, plan0 + [p]);
      return false, next, changes, replicaCounter;
    }
    CarryOne(me, prev, obs, m, counter, generation, plan0, next, p);
    replicaCounter := c.value;
    next := Write(me, prev, obs, m, generation, next, p, replicaCounter);
    changes := changes + [ChangeFor(prev, obs, m, p)];
    ok := true;
  }

  /** The loop of `apply_scan` over the observed entries. */
  method StampObserved(me: ReplicaId, prev: Records, counter: nat, generation: nat, obs: Observation, m: Renames)
    returns (ok: bool, next: Records, changes: seq<Change>, same: nat, ghost plan: seq<WirePath>)
    requires counter <= U64_MAX
    requires forall p :: p in prev ==> Get(prev[p].version, me) <= counter
    requires RenamesFit(prev, obs, m)
    ensures !ok ==> counter + |Primaries(prev, obs, m)| > U64_MAX
    ensures ok ==> Stamping(me, prev, obs, m, counter, generation, plan, changes, next)
    ensures ok ==> forall i :: 0 <= i < |plan| ==> plan[i] in obs.current
    ensures ok ==> forall p :: p in obs.current && Primary(prev, obs, m, p) ==> p in plan
    ensures ok ==> same + |plan| == |obs.current|
  {
    hide Stamping, RenamesFit, Unchanged, Primary, Primaries;
    next, changes, same, plan := prev, [], 0, [];
    StampNone(me, prev, obs, m, counter, generation);
    var replicaCounter := counter;
    var todo := obs.current.Keys;
    while todo != {}
      invariant todo <= obs.current.Keys
      invariant Stamping(me, prev, obs, m, counter, generation, plan, changes, next)
      invariant replicaCounter == counter + |plan| && same + |plan| + |todo| == |obs.current|
      invariant forall i :: 0 <= i < |plan| ==> plan[i] in obs.current && plan[i] !in todo
      invariant forall p :: p in obs.current && Primary(prev, obs, m, p) ==> p in plan || p in todo
    {
      var p :| p in todo;
      todo := todo - {p};
      ObservedFacts(prev, obs, m, p);
      if Unchanged(prev, obs, p) {
        same := same + 1;
      } else {
        ok, next, changes, replicaCounter :=
          StampOne(me, prev, counter, generation, obs, m, next, changes, replicaCounter, plan, p);
        if !ok {
          return;
        }
        plan := plan + [p];
      }
    }
    ok := true;
  }

  /** The loop of `apply_scan` over the previous rows, which buries what is gone. Every correlated
      rename has been carried out by now, so the renamed sources are those of `m`. */
  method StampMissing(me: ReplicaId, prev: Records, counter: nat, generation: nat, obs: Observation, m: Renames,
                      next0: Records, changes0: seq<Change>, ghost plan0: seq<WirePath>)
    returns (ok: bool, next: Records, changes: seq<Change>, ghost plan: seq<WirePath>)
    requires forall p :: p in prev ==> Get(prev[p].version, me) <= counter
    requires RenamesFit(prev, obs, m)
    requires Stamping(me, prev, obs, m, counter, generation, plan0, changes0, next0)
    requires forall i :: 0 <= i < |plan0| ==> plan0[i] in obs.current
    requires forall p :: p in obs.current && Primary(prev, obs, m, p) ==> p in plan0
    ensures !ok ==> counter + |Primaries(prev, obs, m)| > U64_MAX
    ensures ok ==> Stamping(me, prev, obs, m, counter, generation, plan, changes, next)
    ensures ok ==> Exhausted(prev, obs, m, plan)
  {
    hide Stamping, RenamesFit, Primaries, Primary, Distinct;
    StampingSize(me, prev, obs, m, counter, generation, plan0, changes0, next0);
    next, changes, plan := next0, changes0, plan0;
    var replicaCounter := counter + |changes|;
    var todo := prev.Keys;
    while todo != {}
      invariant todo <= prev.Keys
      invariant Stamping(me, prev, obs, m, counter, generation, plan, changes, next)
      invariant replicaCounter == counter + |plan|
      invariant forall i :: 0 <= i < |plan| ==> plan[i] in obs.current || plan[i] !in todo
      invariant forall p :: p in obs.current && Primary(prev, obs, m, p) ==> p in plan
      invariant forall p :: p in prev && p !in obs.current && Primary(prev, obs, m, p) ==> p in plan || p in todo
    {
      var p :| p in todo;
      todo := todo - {p};
      PreviousFacts(prev, obs, m, p);
      if p in obs.current || !Primary(prev, obs, m, p) {
        continue;
      }
      ok, next, changes, replicaCounter :=
        StampOne(me, prev, counter, generation, obs, m, next, changes, replicaCounter, plan, p);
      if !ok {
        return;
      }
      plan := plan + [p];
    }
    ok := true;
  }

  lemma StampingSize(me: ReplicaId, prev: Records, obs: Observation, m: Renames, counter: nat, generation: nat,
                     plan: seq<WirePath>, changes: seq<Change>, next: Records)
    requires Stamping(me, prev, obs, m, counter, generation, plan, changes, next)
    ensures |plan| == |changes| && |plan| <= |Primaries(prev, obs, m)|
    ensures Exhausted(prev, obs, m, plan) ==> |plan| == |Primaries(prev, obs, m)|
  {
    PlanSize(prev, obs, m, plan);
  }
}
