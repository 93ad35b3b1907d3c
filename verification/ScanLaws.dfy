/** What a scan means: nothing is dropped, what was seen is recorded, clocks only advance, and a
    second look at the same tree changes nothing. */
module ScanLaws {
  import opened Core
  import opened Index

  /** The row of one path after a scan, with what is known about it. */
  lemma ScannedRow(me: ReplicaId, pre: IndexState, obs: Observation, m: Renames, plan: seq<WirePath>, post: IndexState, p: WirePath)
    returns (c: nat)
    requires Coherent(me, pre) && ScanOutcome(me, pre, obs, m, plan, post) && p in post.records
    ensures Touched(m, plan, p) ==>
              && (p in obs.current || p in pre.records)
              && pre.counter < c <= post.counter == pre.counter + |plan|
              && post.records[p] == Authored(me, pre.records, obs, post.generation, p, m.Source(p), c)
              && (plan[c - pre.counter - 1] == p || (p in m.target && plan[c - pre.counter - 1] == m.target[p]))
    ensures !Touched(m, plan, p) ==> p in pre.records && post.records[p] == pre.records[p]
  {
    hide Carried, IsPlan, RenamesFit, IsRenameMap, Exhausted, Authored, Touched;
    RenamesInvert(pre.records, obs, m);
    c := RowAfter(me, pre.records, obs, m, pre.counter, pre.generation + 1, plan, post.records, p);
  }

  /** The row is live and has every value of the observed entry. */
  predicate HasValues(r: PathRecord, e: Entry) {
    && !r.tombstone
    && r.kind == e.kind && r.identity == e.identity && r.size == e.size
    && r.modified == e.modified && r.readonly == e.readonly && r.contentHash == e.contentHash
  }

  /** Nothing may be concluded from the absence of the path. */
  predicate Excused(obs: Observation, p: WirePath) {
    obs.preserveAll || p in obs.preserved || exists q :: q in obs.uncertain && q.components <= p.components
  }

  /** Which paths a scan writes: the observed ones whose live row does not have the observed values
      already, and the live ones that are gone without an excuse. */
  lemma TouchedExactly(me: ReplicaId, pre: IndexState, obs: Observation, m: Renames, plan: seq<WirePath>, post: IndexState, p: WirePath)
    requires ScanOutcome(me, pre, obs, m, plan, post)
    ensures p in obs.current ==> p in post.records && (Touched(m, plan, p) <==> !Unchanged(pre.records, obs, p))
    ensures p in obs.current ==> (Touched(m, plan, p) <==> !(p in pre.records && HasValues(pre.records[p], obs.current[p])))
    ensures p !in obs.current ==> (Touched(m, plan, p) <==> Missing(pre.records, obs, p))
    ensures p !in obs.current ==> (Touched(m, plan, p) <==> p in pre.records && !pre.records[p].tombstone && !Excused(obs, p))
    ensures p in m.target ==> Missing(pre.records, obs, p)
    ensures p in m.source ==> p in obs.current && (p in pre.records ==> pre.records[p].tombstone)
  {
    hide Carried, IsRenameMap;
    RenamesInvert(pre.records, obs, m);
    PathsAfter(me, pre.records, obs, m, pre.counter, pre.generation + 1, plan, post.records, p);
    if p in m.source { SourceIsNew(pre.records, obs, m.source, p); }
    if p in plan { var i :| 0 <= i < |plan| && plan[i] == p; }
    if p in m.target { assert Primary(pre.records, obs, m, m.target[p]); }
    ExcusedIsPreserved(obs, p);
  }

  lemma ExcusedIsPreserved(obs: Observation, p: WirePath)
    ensures obs.Preserves(p) <==> Excused(obs, p)
  {
    if obs.Preserves(p) && !obs.preserveAll && p !in obs.preserved {
      var q :| q in obs.uncertain && Within(q, p);
      assert q.components <= p.components;
    }
    if Excused(obs, p) && !obs.preserveAll && p !in obs.preserved {
      var q :| q in obs.uncertain && q.components <= p.components;
      assert Within(q, p);
    }
  }

  lemma SourceIsNew(prev: Records, obs: Observation, source: map<WirePath, WirePath>, t: WirePath)
    requires IsRenameMap(prev, obs, source) && t in source
    ensures t in prev ==> prev[t].tombstone
  {
    assert RenamePair(prev, obs, source[t], t);
  }

  lemma PathsAfter(me: ReplicaId, prev: Records, obs: Observation, m: Renames, counter: nat, generation: nat,
                   plan: seq<WirePath>, next: Records, p: WirePath)
    requires Carried(me, prev, obs, m, counter, generation, plan, next)
    ensures p in prev || p in plan ==> p in next
    ensures p in next ==> p in prev || p in plan
  {
  }

  /** The scan result is exact: no path is dropped, every observed path is live and matches its
      entry, every unexcused missing path is buried, and an excused one is left alone and is not
      the source of a rename. */
  lemma ScanIsExact(me: ReplicaId, pre: IndexState, obs: Observation, m: Renames, plan: seq<WirePath>, post: IndexState, p: WirePath)
    requires Coherent(me, pre) && ScanOutcome(me, pre, obs, m, plan, post)
    ensures p in post.records <==> p in pre.records || p in obs.current
    ensures p in obs.current ==> HasValues(post.records[p], obs.current[p]) && post.records[p].Matches(obs.current[p])
    ensures p in pre.records && p !in obs.current ==>
              post.records[p].tombstone == (pre.records[p].tombstone || !Excused(obs, p))
    ensures p in pre.records && p !in obs.current && Excused(obs, p) ==> post.records[p] == pre.records[p] && p !in m.target
    ensures p in pre.records && p !in obs.current ==>
              var v := post.records[p];
              pre.records[p].(version := v.version, tombstone := v.tombstone, generation := v.generation) == v
    ensures p in pre.records && p !in obs.current && pre.records[p].tombstone ==> post.records[p] == pre.records[p]
  {
    hide ScanOutcome, Coherent, Touched;
    TouchedExactly(me, pre, obs, m, plan, post, p);
    ExcusedIsPreserved(obs, p);
    Keys(me, pre, obs, m, plan, post, p);
    if p in post.records {
      var c := ScannedRow(me, pre, obs, m, plan, post, p);
    }
  }

  lemma Keys(me: ReplicaId, pre: IndexState, obs: Observation, m: Renames, plan: seq<WirePath>, post: IndexState, p: WirePath)
    requires ScanOutcome(me, pre, obs, m, plan, post)
    ensures p in pre.records ==> p in post.records
    ensures p in post.records ==> p in pre.records || p in obs.current
  {
    hide IsRenameMap, Exhausted, RenamesFit;
  }

  /** A path's clock never goes down, except that a rename target takes the clock of the path it
      came from; such a target had no live row. */
  lemma ClocksAdvance(me: ReplicaId, pre: IndexState, obs: Observation, m: Renames, plan: seq<WirePath>, post: IndexState, p: WirePath)
    requires Coherent(me, pre) && ScanOutcome(me, pre, obs, m, plan, post) && p in pre.records
    ensures p in post.records
    ensures p !in m.source ==> AtMost(pre.records[p].version, post.records[p].version)
    ensures p in m.source ==>
              && pre.records[p].tombstone
              && m.source[p] in pre.records
              && AtMost(pre.records[m.source[p]].version, post.records[p].version)
  {
    hide ScanOutcome, Coherent, Touched;
    TouchedExactly(me, pre, obs, m, plan, post, p);
    Keys(me, pre, obs, m, plan, post, p);
    if p in m.source { SourceIsKept(me, pre, obs, m, plan, post, p); }
    var c := ScannedRow(me, pre, obs, m, plan, post, p);
  }

  lemma SourceIsKept(me: ReplicaId, pre: IndexState, obs: Observation, m: Renames, plan: seq<WirePath>, post: IndexState, p: WirePath)
    requires ScanOutcome(me, pre, obs, m, plan, post) && p in m.source
    ensures m.source[p] in pre.records && m.source[p] !in obs.current && Touched(m, plan, p)
  {
    hide Carried, IsRenameMap, IsPlan;
    assert Primary(pre.records, obs, m, p);
  }

  /** The report holds one change for each path that calls for one, and nothing else; and the
      counter moved by exactly that many. */
  lemma ReportIsExact(me: ReplicaId, pre: IndexState, obs: Observation, m: Renames, plan: seq<WirePath>, post: IndexState, change: Change)
    requires ScanOutcome(me, pre, obs, m, plan, post)
    ensures change in ChangesFor(pre.records, obs, m, plan) <==>
              change == ChangeFor(pre.records, obs, m, change.Primary())
              && change.Primary() in Primaries(pre.records, obs, m)
    ensures post.counter - pre.counter == |Primaries(pre.records, obs, m)|
  {
    hide Carried, IsRenameMap, RenamesFit, Missing, Unchanged;
    PlanSize(pre.records, obs, m, plan);
    var changes := ChangesFor(pre.records, obs, m, plan);
    if change in changes {
      var i :| 0 <= i < |changes| && changes[i] == change;
      assert change.Primary() == plan[i];
    }
    if change == ChangeFor(pre.records, obs, m, change.Primary()) && change.Primary() in Primaries(pre.records, obs, m) {
      var i :| 0 <= i < |plan| && plan[i] == change.Primary();
      assert changes[i] == change;
    }
  }

  /** Which change the report holds for a path: a rename at the new path; otherwise a creation if no
      live row was there, a modification if one was that differs, and a deletion if it is gone
      without an excuse and was not moved. */
  lemma ReportSays(me: ReplicaId, pre: IndexState, obs: Observation, m: Renames, plan: seq<WirePath>, post: IndexState, f: WirePath, p: WirePath)
    requires ScanOutcome(me, pre, obs, m, plan, post)
    ensures var changes := ChangesFor(pre.records, obs, m, plan);
            var live := p in pre.records && !pre.records[p].tombstone;
            && (Renamed(f, p) in changes <==> p in m.source && m.source[p] == f)
            && (Created(p) in changes <==> p in obs.current && !live && p !in m.source)
            && (Modified(p) in changes <==> p in obs.current && live && !HasValues(pre.records[p], obs.current[p]))
            && (Deleted(p) in changes <==> p !in obs.current && live && !Excused(obs, p) && p !in m.target)
  {
    ReportIsExact(me, pre, obs, m, plan, post, Renamed(f, p));
    ReportIsExact(me, pre, obs, m, plan, post, Created(p));
    ReportIsExact(me, pre, obs, m, plan, post, Modified(p));
    ReportIsExact(me, pre, obs, m, plan, post, Deleted(p));
    TouchedExactly(me, pre, obs, m, plan, post, p);
    ExcusedIsPreserved(obs, p);
    hide ScanOutcome, ChangesFor, Touched;
  }

  /** `f` is a live row that is gone without an excuse, with an identity. */
  predicate Vanished(prev: Records, obs: Observation, f: WirePath) {
    f in prev && !prev[f].tombstone && f !in obs.current && !Excused(obs, f) && prev[f].identity.Some?
  }

  /** `t` was observed where no live row was, with an identity. */
  predicate Appeared(prev: Records, obs: Observation, t: WirePath) {
    t in obs.current && !(t in prev && !prev[t].tombstone) && obs.current[t].identity.Some?
  }

  predicate SameObject(k: Kind, i: Option<Identity>, l: Kind, j: Option<Identity>) {
    k == l && i == j
  }

  /** Which renames a scan finds: an object that vanished here and appeared there with every value
      unchanged, if no other object of its kind and identity vanished or appeared. */
  lemma RenamedExactly(me: ReplicaId, pre: IndexState, obs: Observation, m: Renames, plan: seq<WirePath>, post: IndexState, f: WirePath, t: WirePath)
    requires ScanOutcome(me, pre, obs, m, plan, post)
    ensures t in m.source && m.source[t] == f <==>
            && Vanished(pre.records, obs, f) && Appeared(pre.records, obs, t) && HasValues(pre.records[f], obs.current[t])
            && (forall g | Vanished(pre.records, obs, g) && SameObject(pre.records[g].kind, pre.records[g].identity, pre.records[f].kind, pre.records[f].identity) :: g == f)
            && (forall u | Appeared(pre.records, obs, u) && SameObject(obs.current[u].kind, obs.current[u].identity, obs.current[t].kind, obs.current[t].identity) :: u == t)
  {
    var prev := pre.records;
    forall g ensures g in OldKeys(prev, obs) <==> Vanished(prev, obs, g) { ExcusedIsPreserved(obs, g); }
    assert forall u :: u in NewKeys(prev, obs) <==> Appeared(prev, obs, u);
    hide Carried, RenamesFit, IsPlan, Exhausted;
    assert RenamePair(prev, obs, f, t) <==> t in m.source && m.source[t] == f;
    SoleMeans(OldKeys(prev, obs), f);
    SoleMeans(NewKeys(prev, obs), t);
  }

  lemma SoleMeans(keys: map<WirePath, RenameKey>, p: WirePath)
    ensures Sole(keys, p) <==> p in keys && forall q :: q in keys && keys[q].0 == keys[p].0 && keys[q].1 == keys[p].1 ==> q == p
  {
  }

  /** A scan of the entry that was adopted finds it unchanged. */
  lemma AdoptedIsUnchanged(rows: Records, record: SyncRecord, disk: Option<Entry>, generation: nat, obs: Observation)
    requires record.Valid() && !record.tombstone && disk.Some? && Normal(disk.value) && Shown(record, disk)
    requires record.path in obs.current && obs.current[record.path] == disk.value
    ensures VerifyAdopted(rows, record, disk, generation).Ok?
    ensures Unchanged(rows[record.path := VerifyAdopted(rows, record, disk, generation).value], obs, record.path)
  {
  }

  /** Scanning the same observation again reports nothing and changes nothing but the generation. */
  lemma RescanIsIdle(me: ReplicaId, pre: IndexState, obs: Observation, m: Renames, plan: seq<WirePath>, post: IndexState,
                     m': Renames, plan': seq<WirePath>, post': IndexState)
    requires Coherent(me, pre) && Coherent(me, post)
    requires ScanOutcome(me, pre, obs, m, plan, post)
    requires ScanOutcome(me, post, obs, m', plan', post')
    ensures plan' == [] && post'.records == post.records && post'.counter == post.counter
  {
    hide ScanOutcome, Coherent, Touched;
    forall p ensures (p in post'.records <==> p in post.records) && !Touched(m', plan', p) {
      ScanIsExact(me, pre, obs, m, plan, post, p);
      ScanIsExact(me, post, obs, m', plan', post', p);
      TouchedExactly(me, post, obs, m', plan', post', p);
    }
    forall p | p in post'.records ensures post'.records[p] == post.records[p] {
      var c := ScannedRow(me, post, obs, m', plan', post', p);
    }
    Untouched(me, post, obs, m', plan', post');
  }

  lemma Untouched(me: ReplicaId, pre: IndexState, obs: Observation, m: Renames, plan: seq<WirePath>, post: IndexState)
    requires ScanOutcome(me, pre, obs, m, plan, post) && forall p :: !Touched(m, plan, p)
    ensures plan == [] && post.counter == pre.counter
  {
    hide Carried, IsRenameMap, RenamesFit, IsPlan, Exhausted;
    assert plan != [] ==> Touched(m, plan, plan[0]);
  }

  /** Two scans that see the same tree and visit it in the same order commit the same rows. */
  lemma ScanIsDeterministic(me: ReplicaId, pre: IndexState, obs: Observation, plan: seq<WirePath>,
                            m: Renames, post: IndexState, m': Renames, post': IndexState)
    requires Coherent(me, pre)
    requires ScanOutcome(me, pre, obs, m, plan, post) && ScanOutcome(me, pre, obs, m', plan, post')
    ensures m == m' && post == post'
  {
    hide Carried, IsRenameMap, IsPlan, Exhausted, Coherent, Missing, Unchanged;
    RenameMapIsUnique(pre.records, obs, m.source, m'.source);
    assert m.target == m'.target;
    SameRows(me, pre.records, obs, m, pre.counter, pre.generation + 1, plan, post.records, post'.records);
  }

  lemma SameRows(me: ReplicaId, prev: Records, obs: Observation, m: Renames, counter: nat, generation: nat,
                 plan: seq<WirePath>, next: Records, next': Records)
    requires forall f :: f in m.target ==> m.target[f] in m.source && m.source[m.target[f]] == f
    requires Carried(me, prev, obs, m, counter, generation, plan, next)
    requires Carried(me, prev, obs, m, counter, generation, plan, next')
    ensures next == next'
  {
    hide Authored;
    forall p | p in next ensures next[p] == next'[p] {
      if p in plan {
        var i :| 0 <= i < |plan| && plan[i] == p;
      } else if p in m.target && m.target[p] in plan {
        var i :| 0 <= i < |plan| && plan[i] == m.target[p];
      }
    }
  }

  /** The row says the same of the path, and differs at most in the counter value of this replica. */
  ghost predicate SameButStamp(me: ReplicaId, a: PathRecord, b: PathRecord) {
    a.(version := b.version) == b && forall x :: x != me ==> Get(a.version, x) == Get(b.version, x)
  }

  /** The visiting order decides only which change spends which counter value: in any two orders a
      scan finds the same renames, reports the same changes, spends equally many counter values,
      writes the same paths, and leaves rows that agree but for this replica's own entry. */
  lemma OrderIsImmaterial(me: ReplicaId, pre: IndexState, obs: Observation, m: Renames, plan: seq<WirePath>, post: IndexState,
                          m': Renames, plan': seq<WirePath>, post': IndexState, p: WirePath, change: Change)
    requires Coherent(me, pre)
    requires ScanOutcome(me, pre, obs, m, plan, post) && ScanOutcome(me, pre, obs, m', plan', post')
    ensures m == m' && post.counter == post'.counter && post.generation == post'.generation
    ensures change in ChangesFor(pre.records, obs, m, plan) <==> change in ChangesFor(pre.records, obs, m', plan')
    ensures Touched(m, plan, p) && (p in pre.records || p in obs.current) ==> Touched(m', plan', p)
    ensures p in post.records <==> p in post'.records
    ensures p in post.records ==> SameButStamp(me, post.records[p], post'.records[p])
  {
    hide ScanOutcome, Coherent, Touched;
    SameRenames(me, pre, obs, m, plan, post, m', plan', post');
    ReportIsExact(me, pre, obs, m, plan, post, change);
    ReportIsExact(me, pre, obs, m', plan', post', change);
    TouchedExactly(me, pre, obs, m, plan, post, p);
    TouchedExactly(me, pre, obs, m', plan', post', p);
    ScanIsExact(me, pre, obs, m, plan, post, p);
    ScanIsExact(me, pre, obs, m', plan', post', p);
    if p in post.records {
      var c := ScannedRow(me, pre, obs, m, plan, post, p);
      var c' := ScannedRow(me, pre, obs, m', plan', post', p);
    }
  }

  lemma SameRenames(me: ReplicaId, pre: IndexState, obs: Observation, m: Renames, plan: seq<WirePath>, post: IndexState,
                    m': Renames, plan': seq<WirePath>, post': IndexState)
    requires ScanOutcome(me, pre, obs, m, plan, post) && ScanOutcome(me, pre, obs, m', plan', post')
    ensures m == m' && post.generation == post'.generation
  {
    hide Carried, IsRenameMap, IsPlan, Exhausted, Missing, Unchanged;
    RenameMapIsUnique(pre.records, obs, m.source, m'.source);
    assert m.target == m'.target;
  }
}
