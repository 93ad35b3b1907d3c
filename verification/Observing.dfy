/** How a traversal becomes an observation: which files are hashed, which reuse the indexed hash,
    and which are deferred. */
module Observing {
  import opened Core
  import opened Index

  /** A traversed object before hashing. */
  datatype Candidate = Candidate(kind: Kind, identity: Option<Identity>, size: nat, modified: Option<nat>, readonly: bool)
  {
    function WithHash(hash: Option<Hash>): Entry {
      Entry(kind, identity, size, modified, readonly, hash)
    }

    /** `record_fingerprint_matches`. */
    predicate Fits(r: PathRecord) {
      r.kind == kind && r.identity == identity && r.size == size && r.modified == modified && r.readonly == readonly
    }
  }

  datatype Traversal = Traversal(
    candidates: map<WirePath, Candidate>,
    uncertainPaths: set<WirePath>,
    uncertainPrefixes: set<WirePath>,
    preserveAll: bool)

  /** What a scan consults: the rows, the pending retries and the time, the touched paths of an
      incremental scan, and what hashing each file would return now (`None` when unreadable). */
  datatype Scan = Scan(
    records: Records,
    retries: map<WirePath, nat>,
    now: nat,
    touched: Option<set<WirePath>>,
    hashes: map<WirePath, Option<Hash>>)
  {
    /** The index may stand in for a hash: an untouched file whose live row has its fingerprint.
        A complete scan has no touched set and never takes the shortcut. */
    predicate Reuses(p: WirePath, c: Candidate) {
      && c.kind == File
      && touched.Some? && p !in touched.value
      && p in records && !records[p].tombstone && records[p].contentHash.Some? && c.Fits(records[p])
    }

    predicate Deferred(p: WirePath) {
      p in retries && now < retries[p]
    }

    /** The entry recorded for a candidate, if any. */
    function EntryFor(p: WirePath, c: Candidate): Option<Entry> {
      if c.kind != File then Some(c.WithHash(None))
      else if Reuses(p, c) then Some(c.WithHash(records[p].contentHash))
      else if Deferred(p) || p !in hashes || hashes[p].None? then None
      else Some(c.WithHash(hashes[p]))
    }
  }

  /** What a traversal establishes, path by path. */
  ghost predicate Establishes(s: Scan, t: Traversal, obs: Observation) {
    && (forall p :: p in obs.current ==> p in t.candidates && s.EntryFor(p, t.candidates[p]) == Some(obs.current[p]))
    && (forall p :: p in t.candidates && s.EntryFor(p, t.candidates[p]).Some? ==> p in obs.current)
    && (forall p :: p in obs.preserved <==>
          p in t.uncertainPaths || (p in t.candidates && s.EntryFor(p, t.candidates[p]).None?))
    && obs.uncertain == t.uncertainPrefixes
    && obs.preserveAll == t.preserveAll
  }

  /** The same, after only the candidates in `done` have been settled. */
  ghost predicate Settled(s: Scan, t: Traversal, done: set<WirePath>, scanned: map<WirePath, Entry>, preserved: set<WirePath>) {
    && (forall p :: p in scanned ==> p in done && p in t.candidates && s.EntryFor(p, t.candidates[p]) == Some(scanned[p]))
    && (forall p :: p in done && p in t.candidates && s.EntryFor(p, t.candidates[p]).Some? ==> p in scanned)
    && (forall p :: p in preserved <==>
          p in t.uncertainPaths || (p in done && p in t.candidates && s.EntryFor(p, t.candidates[p]).None?))
  }

  lemma SettleOne(s: Scan, t: Traversal, done: set<WirePath>, scanned: map<WirePath, Entry>, preserved: set<WirePath>, p: WirePath)
    requires Settled(s, t, done, scanned, preserved) && p in t.candidates
    ensures match s.EntryFor(p, t.candidates[p])
            case Some(e) => Settled(s, t, done + {p}, scanned[p := e], preserved)
            case None => Settled(s, t, done + {p}, scanned, preserved + {p})
  {
    hide Scan.EntryFor;
  }

  /** The two loops of `scan_internal`: partition the candidates, then fold in the hash results. */
  method CollectObservation(s: Scan, t: Traversal) returns (obs: Observation)
    ensures Establishes(s, t, obs)
  {
    var scanned: map<WirePath, Entry> := map[];
    var preserved, toHash := t.uncertainPaths, {};
    var todo := t.candidates.Keys;
    ghost var done: set<WirePath> := {};
    assert Settled(s, t, done, scanned, preserved);
    while todo != {}
      invariant todo + toHash + done == t.candidates.Keys
      invariant forall p :: p in toHash ==> t.candidates[p].kind == File && !s.Reuses(p, t.candidates[p]) && !s.Deferred(p)
      invariant Settled(s, t, done, scanned, preserved)
      decreases todo
    {
      hide Settled;
      var p :| p in todo;
      var c := t.candidates[p];
      SettleOne(s, t, done, scanned, preserved, p);
      todo := todo - {p};
      if c.kind == File && !s.Reuses(p, c) && !s.Deferred(p) {
        toHash := toHash + {p};
        continue;
      }
      if c.kind != File {
        scanned := scanned[p := c.WithHash(None)];
      } else if s.Reuses(p, c) {
        scanned := scanned[p := c.WithHash(s.records[p].contentHash)];
      } else {
        preserved := preserved + {p};
      }
      done := done + {p};
    }
    while toHash != {}
      invariant toHash + done == t.candidates.Keys
      invariant forall p :: p in toHash ==> t.candidates[p].kind == File && !s.Reuses(p, t.candidates[p]) && !s.Deferred(p)
      invariant Settled(s, t, done, scanned, preserved)
      decreases toHash
    {
      hide Settled;
      var p :| p in toHash;
      SettleOne(s, t, done, scanned, preserved, p);
      if p in s.hashes && s.hashes[p].Some? {
        scanned := scanned[p := t.candidates[p].WithHash(s.hashes[p])];
      } else {
        preserved := preserved + {p};
      }
      toHash, done := toHash - {p}, done + {p};
    }
    obs := Observation(scanned, preserved, t.uncertainPrefixes, t.preserveAll);
  }

  /** What becomes of one candidate. Anything but a file is recorded without content. A file is skipped
      if it was not touched and a live row with content has its kind, identity, size, time and
      permission; then the row's content stands for it. Any other file is recorded with the content
      found, or preserved if it waits for a retry or cannot be read. */
  lemma CandidateExactly(s: Scan, t: Traversal, obs: Observation, p: WirePath)
    requires Establishes(s, t, obs) && p in t.candidates
    ensures var c := t.candidates[p];
            var skipped :=
              && s.touched.Some? && p !in s.touched.value && p in s.records && !s.records[p].tombstone
              && s.records[p].contentHash.Some? && s.records[p].kind == c.kind && s.records[p].identity == c.identity
              && s.records[p].size == c.size && s.records[p].modified == c.modified && s.records[p].readonly == c.readonly;
            var waiting := p in s.retries && s.now < s.retries[p];
            var found := if p in s.hashes then s.hashes[p] else None;
            var content :=
              if c.kind != File then Some(None)
              else if skipped then Some(s.records[p].contentHash)
              else if waiting || found.None? then None
              else Some(found);
            && (p in obs.current <==> content.Some?)
            && (content.Some? ==> obs.current[p] == Entry(c.kind, c.identity, c.size, c.modified, c.readonly, content.value))
            && (p in obs.preserved <==> content.None? || p in t.uncertainPaths)
  {
  }

  /** A traversal establishes one observation. */
  lemma EstablishedOnce(s: Scan, t: Traversal, a: Observation, b: Observation)
    requires Establishes(s, t, a) && Establishes(s, t, b)
    ensures a == b
  {
    hide Scan.EntryFor;
    assert a.current == b.current && a.preserved == b.preserved;
  }

  /** The file is skipped by the shortcut, though hashing it now would give another content. */
  predicate Overlooked(s: Scan, t: Traversal, p: WirePath) {
    && p in t.candidates && s.Reuses(p, t.candidates[p]) && !s.Deferred(p)
    && p in s.hashes && s.hashes[p].Some? && s.hashes[p] != s.records[p].contentHash
  }

  /** A complete scan records the same entry for the file that the shortcut skips. */
  predicate Confirmed(s: Scan, p: WirePath) {
    !s.Deferred(p) && p in s.hashes && p in s.records && s.hashes[p] == s.records[p].contentHash
  }

  /** An incremental scan sees exactly what a complete one sees, if and only if every file it skips
      is confirmed by its hash and is not waiting for a retry: a complete scan would hold it back. */
  lemma IncrementalRefinesComplete(s: Scan, t: Traversal, fast: Observation, full: Observation)
    requires s.touched.Some?
    requires Establishes(s, t, fast) && Establishes(s.(touched := None), t, full)
    ensures fast == full <==> forall p :: p in t.candidates && s.Reuses(p, t.candidates[p]) ==> Confirmed(s, p)
  {
    var c := s.(touched := None);
    forall p | p in t.candidates
      ensures s.EntryFor(p, t.candidates[p]) == c.EntryFor(p, t.candidates[p]) <==>
              (s.Reuses(p, t.candidates[p]) ==> Confirmed(s, p))
    {}
    if forall p :: p in t.candidates && s.Reuses(p, t.candidates[p]) ==> Confirmed(s, p) {
      hide Scan.EntryFor, Scan.Reuses, Scan.Deferred;
      assert fast.current == full.current && fast.preserved == full.preserved;
    } else {
      var p :| p in t.candidates && s.Reuses(p, t.candidates[p]) && !Confirmed(s, p);
      assert s.EntryFor(p, t.candidates[p]) != c.EntryFor(p, t.candidates[p]);
      assert p in fast.current && (p in full.current ==> fast.current[p] != full.current[p]);
    }
  }

  /** Two observations say the same about a path, or both say that its live row is to stay. */
  ghost predicate AlikeAt(prev: Records, a: Observation, b: Observation, p: WirePath) {
    || ((p in a.current <==> p in b.current) && (p in a.current ==> a.current[p] == b.current[p])
        && (a.Preserves(p) <==> b.Preserves(p)))
    || (Stays(prev, a, p) && Stays(prev, b, p))
  }

  ghost predicate Stays(prev: Records, obs: Observation, p: WirePath) {
    p in prev && !prev[p].tombstone && if p in obs.current then Unchanged(prev, obs, p) else obs.Preserves(p)
  }

  ghost predicate Alike(prev: Records, a: Observation, b: Observation) {
    forall p :: AlikeAt(prev, a, b, p)
  }

  lemma AlikeKeys(prev: Records, a: Observation, b: Observation)
    requires Alike(prev, a, b)
    ensures OldKeys(prev, a) == OldKeys(prev, b) && NewKeys(prev, a) == NewKeys(prev, b)
    ensures forall t :: t in NewKeys(prev, a) ==> a.current[t] == b.current[t]
  {
    hide Observation.Preserves, PathRecord.Matches;
    forall p ensures Missing(prev, a, p) <==> Missing(prev, b, p) { assert AlikeAt(prev, a, b, p); }
    forall p ensures p in NewKeys(prev, a) <==> p in NewKeys(prev, b) { assert AlikeAt(prev, a, b, p); }
    forall p | p in NewKeys(prev, a) ensures a.current[p] == b.current[p] { assert AlikeAt(prev, a, b, p); }
  }

  lemma AlikeRenames(prev: Records, a: Observation, b: Observation, source: map<WirePath, WirePath>)
    requires Alike(prev, a, b) && IsRenameMap(prev, a, source)
    ensures IsRenameMap(prev, b, source)
  {
    AlikeKeys(prev, a, b);
    hide Alike, OldKeys, NewKeys;
    forall f, t ensures RenamePair(prev, a, f, t) <==> RenamePair(prev, b, f, t) {
      PairKeys(prev, a, f, t);
      PairKeys(prev, b, f, t);
    }
  }

  lemma PairKeys(prev: Records, obs: Observation, f: WirePath, t: WirePath)
    ensures f in OldKeys(prev, obs) ==> f in prev
    ensures t in NewKeys(prev, obs) ==> t in obs.current
    ensures RenamePair(prev, obs, f, t) <==>
            && Sole(OldKeys(prev, obs), f) && Sole(NewKeys(prev, obs), t)
            && f in prev && t in obs.current && prev[f].Matches(obs.current[t])
  {
  }

  /** A change is called for at the same paths, and it is the same change. */
  lemma AlikeChanges(prev: Records, a: Observation, b: Observation, m: Renames, p: WirePath)
    requires Alike(prev, a, b)
    ensures Primary(prev, a, m, p) <==> Primary(prev, b, m, p)
    ensures Primary(prev, a, m, p) ==>
              && (p in a.current <==> p in b.current) && (p in a.current ==> a.current[p] == b.current[p])
              && ChangeFor(prev, a, m, p) == ChangeFor(prev, b, m, p)
    ensures Missing(prev, a, p) <==> Missing(prev, b, p)
  {
    hide Observation.Preserves, PathRecord.Matches;
    assert AlikeAt(prev, a, b, p);
  }

  lemma AlikeFit(prev: Records, a: Observation, b: Observation, m: Renames)
    requires Alike(prev, a, b) && IsRenameMap(prev, a, m.source) && RenamesFit(prev, a, m)
    ensures RenamesFit(prev, b, m)
  {
    hide Observation.Preserves, PathRecord.Matches, Sole;
    AlikeKeys(prev, a, b);
    forall t | t in m.source ensures t in NewKeys(prev, a) && m.source[t] in OldKeys(prev, b) {
      SourceKeys(prev, a, m.source, t);
    }
  }

  lemma SourceKeys(prev: Records, obs: Observation, source: map<WirePath, WirePath>, t: WirePath)
    requires IsRenameMap(prev, obs, source) && t in source
    ensures t in NewKeys(prev, obs) && source[t] in OldKeys(prev, obs)
  {
    assert RenamePair(prev, obs, source[t], t);
  }

  lemma AlikeAuthored(me: ReplicaId, prev: Records, a: Observation, b: Observation, generation: nat,
                      p: WirePath, source: WirePath, counter: nat)
    requires p in a.current || p in prev
    requires (p in a.current <==> p in b.current) && (p in a.current ==> a.current[p] == b.current[p])
    ensures Authored(me, prev, a, generation, p, source, counter) == Authored(me, prev, b, generation, p, source, counter)
  {
  }

  lemma SourcesAreGone(prev: Records, obs: Observation, m: Renames, t: WirePath)
    requires RenamesFit(prev, obs, m) && t in m.source
    ensures m.source[t] !in obs.current
  {
  }

  lemma AlikeIsPlan(prev: Records, a: Observation, b: Observation, m: Renames, plan: seq<WirePath>)
    requires Alike(prev, a, b) && IsPlan(prev, a, m, plan)
    ensures IsPlan(prev, b, m, plan)
    ensures forall k :: 0 <= k < |plan| ==>
              (plan[k] in a.current <==> plan[k] in b.current) && (plan[k] in a.current ==> a.current[plan[k]] == b.current[plan[k]])
  {
    hide Alike, Primary, Distinct;
    forall k | 0 <= k < |plan|
      ensures (plan[k] in a.current <==> plan[k] in b.current) && (plan[k] in a.current ==> a.current[plan[k]] == b.current[plan[k]])
      ensures Primary(prev, b, m, plan[k])
    {
      AlikeChanges(prev, a, b, m, plan[k]);
    }
  }

  /** The rows that a plan writes are the same. */
  lemma AlikeCarried(me: ReplicaId, prev: Records, a: Observation, b: Observation, m: Renames, counter: nat, generation: nat,
                     plan: seq<WirePath>, next: Records)
    requires Alike(prev, a, b) && IsPlan(prev, a, m, plan) && RenamesFit(prev, a, m) && RenamesFit(prev, b, m)
    requires Carried(me, prev, a, m, counter, generation, plan, next)
    ensures Carried(me, prev, b, m, counter, generation, plan, next) && IsPlan(prev, b, m, plan)
  {
    hide Alike, IsPlan, RenamesFit, Authored, Touched;
    AlikeIsPlan(prev, a, b, m, plan);
    forall k | 0 <= k < |plan|
      ensures (plan[k] in b.current || plan[k] in prev)
              && next[plan[k]] == Authored(me, prev, b, generation, plan[k], m.Source(plan[k]), counter + 1 + k)
    {
      AlikeAuthored(me, prev, a, b, generation, plan[k], m.Source(plan[k]), counter + 1 + k);
    }
    forall k | 0 <= k < |plan| && plan[k] in m.source
      ensures m.source[plan[k]] in prev
              && next[m.source[plan[k]]] == Authored(me, prev, b, generation, m.source[plan[k]], m.source[plan[k]], counter + 1 + k)
    {
      SourcesAreGone(prev, a, m, plan[k]);
      SourcesAreGone(prev, b, m, plan[k]);
      AlikeAuthored(me, prev, a, b, generation, m.source[plan[k]], m.source[plan[k]], counter + 1 + k);
    }
  }

  lemma AlikeOutcome(me: ReplicaId, pre: IndexState, a: Observation, b: Observation, m: Renames, plan: seq<WirePath>, post: IndexState)
    requires Alike(pre.records, a, b) && ScanOutcome(me, pre, a, m, plan, post)
    ensures ScanOutcome(me, pre, b, m, plan, post)
    ensures ChangesFor(pre.records, a, m, plan) == ChangesFor(pre.records, b, m, plan)
  {
    hide Alike, IsRenameMap, RenamesFit, Carried, Primary, IsPlan;
    AlikeRenames(pre.records, a, b, m.source);
    AlikeFit(pre.records, a, b, m);
    AlikeCarried(me, pre.records, a, b, m, pre.counter, pre.generation + 1, plan, post.records);
    AlikePlan(pre.records, a, b, m, plan);
  }

  lemma AlikePlan(prev: Records, a: Observation, b: Observation, m: Renames, plan: seq<WirePath>)
    requires Alike(prev, a, b) && IsPlan(prev, a, m, plan) && Exhausted(prev, a, m, plan)
    ensures Exhausted(prev, b, m, plan)
    ensures ChangesFor(prev, a, m, plan) == ChangesFor(prev, b, m, plan)
  {
    hide Alike, Primary, ChangeFor;
    forall p | p in prev || p in b.current || p in a.current
      ensures Primary(prev, a, m, p) <==> Primary(prev, b, m, p)
      ensures Primary(prev, a, m, p) ==> (p in a.current <==> p in b.current) && ChangeFor(prev, a, m, p) == ChangeFor(prev, b, m, p)
    {
      AlikeChanges(prev, a, b, m, p);
    }
  }

  lemma AlikeIsMutual(prev: Records, a: Observation, b: Observation)
    requires Alike(prev, a, b)
    ensures Alike(prev, b, a)
  {
    forall p ensures AlikeAt(prev, b, a, p) { assert AlikeAt(prev, a, b, p); }
  }

  /** Unless a file is overlooked, the two observations differ only in files whose row stays. */
  lemma IncrementalIsAlike(s: Scan, t: Traversal, fast: Observation, full: Observation)
    requires Establishes(s, t, fast) && Establishes(s.(touched := None), t, full)
    requires forall p :: !Overlooked(s, t, p)
    ensures Alike(s.records, fast, full)
  {
    forall p ensures AlikeAt(s.records, fast, full, p) {
      assert !Overlooked(s, t, p);
    }
  }

  /** An overlooked file is a change for the complete scan and none for the incremental one. */
  lemma OverlookedIsNoticed(s: Scan, t: Traversal, fast: Observation, full: Observation, m: Renames, p: WirePath)
    requires Establishes(s, t, fast) && Establishes(s.(touched := None), t, full) && Overlooked(s, t, p)
    ensures Primary(s.records, full, m, p) && !Primary(s.records, fast, m, p) && p in full.current
  {
  }

  /** What an incremental scan commits and reports is what a complete scan commits and reports, in
      both directions, if and only if no overlooked file has changed behind an unchanged fingerprint.
      Pending retries do not matter: a file that waits for one is unchanged for the one scan and
      preserved for the other. */
  lemma IncrementalCommitsTheSame(me: ReplicaId, pre: IndexState, s: Scan, t: Traversal, fast: Observation, full: Observation,
                                  m: Renames, plan: seq<WirePath>, post: IndexState)
    requires pre.records == s.records
    requires Establishes(s, t, fast) && Establishes(s.(touched := None), t, full)
    requires ScanOutcome(me, pre, fast, m, plan, post) || ScanOutcome(me, pre, full, m, plan, post)
    ensures (ScanOutcome(me, pre, fast, m, plan, post) && ScanOutcome(me, pre, full, m, plan, post)) <==>
            forall p :: !Overlooked(s, t, p)
    ensures (forall p :: !Overlooked(s, t, p)) ==>
              ChangesFor(pre.records, fast, m, plan) == ChangesFor(pre.records, full, m, plan)
  {
    hide ScanOutcome, Establishes, Overlooked, Alike;
    if forall p :: !Overlooked(s, t, p) {
      IncrementalIsAlike(s, t, fast, full);
      AlikeIsMutual(s.records, fast, full);
      if ScanOutcome(me, pre, fast, m, plan, post) {
        AlikeOutcome(me, pre, fast, full, m, plan, post);
      } else {
        AlikeOutcome(me, pre, full, fast, m, plan, post);
      }
    } else {
      var p :| Overlooked(s, t, p);
      OverlookedIsNoticed(s, t, fast, full, m, p);
      PlanHas(me, pre, fast, m, plan, post, p);
      PlanHas(me, pre, full, m, plan, post, p);
    }
  }

  lemma PlanHas(me: ReplicaId, pre: IndexState, obs: Observation, m: Renames, plan: seq<WirePath>, post: IndexState, p: WirePath)
    ensures ScanOutcome(me, pre, obs, m, plan, post) && p in obs.current && Primary(pre.records, obs, m, p) ==> p in plan
    ensures ScanOutcome(me, pre, obs, m, plan, post) && p in plan ==> Primary(pre.records, obs, m, p)
  {
    hide Carried, IsRenameMap, RenamesFit, Primary;
  }

  /** A scan in which the observations differ and the commits do not: one known file, unchanged, with
      a retry that is not yet due. */
  lemma RetryIsHeldBack() returns (s: Scan, t: Traversal, fast: Observation, full: Observation)
    ensures s.touched.Some? && Establishes(s, t, fast) && Establishes(s.(touched := None), t, full)
    ensures fast != full && forall p :: !Overlooked(s, t, p)
  {
    var p := WirePath(["a"]);
    var row := PathRecord(p, File, None, 1, None, false, Some(7), map[0 := 1], false, 1);
    var c := Candidate(File, None, 1, None, false);
    s := Scan(map[p := row], map[p := 1], 0, Some({}), map[p := Some(7)]);
    t := Traversal(map[p := c], {}, {}, false);
    fast := Observation(map[p := c.WithHash(Some(7))], {}, {}, false);
    full := Observation(map[], {p}, {}, false);
    assert p in fast.current;
  }
}
