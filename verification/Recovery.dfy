/** Recovery of causal changes after a crash: the journal of path changes, and the index that adopts
    a change once it is installed. */
module Recovery {
  import opened Core
  import opened Index

  datatype Progress = Prepared | Preserved | Materialized | Indexed | Committed | Aborted | RollingBack | RolledBack

  /** The record a change installs, and what the index held when it was prepared. */
  datatype Binding = Binding(record: SyncRecord, precondition: Option<SyncRecord>)

  /** One journaled path change; only some are causal. */
  datatype Attempt = Attempt(root: nat, causal: Option<Binding>, progress: Progress)

  datatype Decision = Adopt | Refuse

  /** Where a resumed installation may be left by an error or a crash; `Prepared` stands for no
      durable progress. */
  type Stop = p: Progress | p.Prepared? || p.Preserved? || p.Materialized? || p.Aborted? witness Prepared

  /** How far the store gets with an unfinished installation. */
  datatype Resumed = Installed | Drifted | Interrupted(at: Stop)

  datatype Marked = Complete | HalfWay | NotAtAll

  /** Everything outside the journal and the index that decides the recovery of one change: the
      caller's authority (or its failure), the store's success, and what is on disk. */
  datatype Fate = Fate(decision: Option<Decision>, resumed: Resumed, rolledBack: bool, disk: Option<Entry>, marked: Marked)

  predicate Finished(p: Progress) {
    p.Committed? || p.Aborted? || p.RolledBack?
  }

  predicate Mine(a: Attempt, root: nat) {
    a.root == root && a.causal.Some?
  }

  predicate Open(a: Attempt, root: nat) {
    Mine(a, root) && !Finished(a.progress)
  }

  function Current(records: Records, p: WirePath): Option<SyncRecord> {
    if p in records then Some(records[p].ToSync()) else None
  }

  /** `recover_path_changes`: changes without a binding are aborted, adopted ones are committed. */
  function Tidy(a: Attempt, root: nat): Attempt {
    if a.root != root then a
    else if a.causal.None? && (a.progress.Prepared? || a.progress.Preserved?) then a.(progress := Aborted)
    else if a.progress.Indexed? then a.(progress := Committed)
    else a
  }

  ghost predicate Quiet(attempts: seq<Attempt>, root: nat) {
    forall i :: 0 <= i < |attempts| ==> Tidy(attempts[i], root) == attempts[i] && !Open(attempts[i], root)
  }

  // ---------------------------------------------------------------- one change

  /** Recovery of this open change gets through. */
  ghost predicate Settles(me: ReplicaId, s: IndexState, a: Attempt, fate: Fate)
    requires a.causal.Some?
  {
    var b := a.causal.value;
    if Current(s.records, b.record.path) == Some(b.record) then a.progress.Materialized? && fate.marked.Complete?
    else
      && Current(s.records, b.record.path) == b.precondition
      && (if a.progress.RollingBack? then fate.rolledBack
          else
            && Applicable(me, s, b.record)
            && fate.decision.Some?
            && (if fate.decision.value.Refuse? then fate.rolledBack
                else if fate.resumed.Drifted? && !a.progress.Materialized? then true
                else (fate.resumed.Installed? || a.progress.Materialized?) && Adoptable(s, b.record, fate) && fate.marked.Complete?))
  }

  ghost predicate Adoptable(s: IndexState, record: SyncRecord, fate: Fate) {
    record.Valid() && s.generation < U64_MAX && Shown(record, fate.disk)
  }

  /** What a settled change leaves: committed with its record in the index, or given up with its
      precondition still there. */
  ghost predicate SettledTo(me: ReplicaId, s: IndexState, a: Attempt, t: IndexState, b: Attempt)
    requires a.causal.Some?
  {
    var bound := a.causal.value;
    && b.(progress := a.progress) == a
    && Finished(b.progress)
    && (b.progress.Committed? ==>
          && Current(t.records, bound.record.path) == Some(bound.record)
          && (|| (t == s && Current(s.records, bound.record.path) == Some(bound.record))
              || (Current(s.records, bound.record.path) == bound.precondition
                  && Applicable(me, s, bound.record) && AdoptOutcome(s, bound.record, t))))
    && (!b.progress.Committed? ==> t == s && Current(s.records, bound.record.path) == bound.precondition)
  }

  /** All that the recovery of an open change may leave, whether it gets through, fails or is cut off:
      nothing has moved; the record was there and the change is being marked; or its precondition was
      there, and the change is being undone, or installed, or was adopted. */
  ghost predicate Moved(me: ReplicaId, s: IndexState, a: Attempt, t: IndexState, b: Attempt)
    requires a.causal.Some?
  {
    var bound := a.causal.value;
    var row := Current(s.records, bound.record.path);
    && b.(progress := a.progress) == a
    && (|| (t == s && b == a)
        || (t == s && row == Some(bound.record) && a.progress.Materialized? && (b.progress.Indexed? || b.progress.Committed?))
        || (row == bound.precondition && row != Some(bound.record)
            && (|| (t == s && (b.progress.RollingBack? || b.progress.RolledBack?))
                || (t == s && !a.progress.RollingBack?
                    && (b.progress.Preserved? || b.progress.Materialized? || b.progress.Aborted?))
                || (Applicable(me, s, bound.record) && AdoptOutcome(s, bound.record, t)
                    && (b.progress.Materialized? || b.progress.Indexed? || b.progress.Committed?)))))
  }

  /** The effect of the loop on one entry of the journal when it goes on to the next. */
  ghost predicate Recovered(me: ReplicaId, root: nat, s: IndexState, a: Attempt, t: IndexState, b: Attempt) {
    if Open(a, root) then SettledTo(me, s, a, t, b) && Moved(me, s, a, t, b) else t == s && b == a
  }

  /** What happens to any entry of the journal in any run; it may also be just tidied, or not be reached. */
  ghost predicate Stepped(me: ReplicaId, root: nat, s: IndexState, a: Attempt, t: IndexState, b: Attempt) {
    || (t == s && (b == a || b == Tidy(a, root)))
    || (Open(Tidy(a, root), root) && Moved(me, s, Tidy(a, root), t, b))
  }

  function MarkedAs(p: Progress, marked: Marked): Progress {
    if !(p.Materialized? || p.Indexed? || p.Committed?) || marked.NotAtAll? then p
    else if marked.HalfWay? then Indexed
    else Committed
  }

  /** The change is adopted: its precondition is the row, nothing is being undone, the record follows,
      the caller agrees, and the target is installed and shown by the disk. */
  ghost predicate Adopts(me: ReplicaId, s: IndexState, a: Attempt, fate: Fate)
    requires a.causal.Some?
  {
    var b := a.causal.value;
    var row := Current(s.records, b.record.path);
    && row == b.precondition && row != Some(b.record) && !a.progress.RollingBack?
    && Applicable(me, s, b.record) && fate.decision == Some(Adopt)
    && (a.progress.Materialized? || fate.resumed.Installed?) && Adoptable(s, b.record, fate)
  }

  /** Where the recovery of an open change leaves its progress, whether it gets through or not. */
  ghost function NextProgress(me: ReplicaId, s: IndexState, a: Attempt, fate: Fate): Progress
    requires a.causal.Some?
  {
    var b := a.causal.value;
    var row := Current(s.records, b.record.path);
    if row == Some(b.record) then MarkedAs(a.progress, fate.marked)
    else if row != b.precondition then a.progress
    else if a.progress.RollingBack? then (if fate.rolledBack then RolledBack else RollingBack)
    else if !Applicable(me, s, b.record) || fate.decision.None? then a.progress
    else if fate.decision == Some(Refuse) then (if fate.rolledBack then RolledBack else RollingBack)
    else if !a.progress.Materialized? && fate.resumed.Interrupted? then
      (if fate.resumed.at.Prepared? then a.progress else fate.resumed.at)
    else if !a.progress.Materialized? && fate.resumed.Drifted? then Aborted
    else if Adopts(me, s, a, fate) then MarkedAs(Materialized, fate.marked)
    else Materialized
  }

  /** What the progress and the index come to says whether and how the change has settled. */
  lemma OutcomeMeans(me: ReplicaId, s: IndexState, a: Attempt, fate: Fate, t: IndexState, b: Attempt)
    requires a.causal.Some? && !Finished(a.progress) && !a.progress.Indexed?
    requires b == a.(progress := NextProgress(me, s, a, fate))
    requires if Adopts(me, s, a, fate) then AdoptOutcome(s, a.causal.value.record, t) else t == s
    ensures Settles(me, s, a, fate) ==> SettledTo(me, s, a, t, b)
    ensures Moved(me, s, a, t, b)
    ensures Settles(me, s, a, fate) && Current(s.records, a.causal.value.record.path) != Some(a.causal.value.record) ==>
              b.progress ==
              if a.progress.RollingBack? || fate.decision == Some(Refuse) then RolledBack
              else if fate.resumed.Drifted? && !a.progress.Materialized? then Aborted
              else Committed
    ensures Stuck(s, a) ==> !Settles(me, s, a, fate) && b == a && t == s
  {
    hide Applicable, Shown;
    assert fate.decision.Some? ==> fate.decision.value == Adopt || fate.decision.value == Refuse;
  }

  /** One run of the recovery: what happens to each change, and how many journal entries are tidied
      before the run is cut off. A run that is cut off later is one in which a change fails. */
  datatype World = World(fates: nat -> Fate, reach: nat)

  ghost predicate Sane(w: World) {
    forall i :: w.fates(i).disk.Some? ==> Normal(w.fates(i).disk.value)
  }

  class Journal {
    const index: LocalIndex
    var attempts: seq<Attempt>

    ghost predicate Valid()
      reads this, index
    {
      index.Valid()
    }

    constructor (index: LocalIndex)
      ensures this.index == index && attempts == []
    {
      this.index, attempts := index, [];
    }

    /** `mark_path_change_indexed`: two durable writes, after a check of the progress. */
    method MarkIndexed(i: nat, marked: Marked) returns (ok: bool)
      requires i < |attempts|
      modifies this
      ensures ok <==> old(attempts)[i].progress in {Materialized, Indexed, Committed} && marked.Complete?
      ensures attempts == old(attempts)[i := old(attempts)[i].(progress := MarkedAs(old(attempts)[i].progress, marked))]
    {
      if attempts[i].progress !in {Materialized, Indexed, Committed} || marked.NotAtAll? {
        return false;
      }
      attempts := attempts[i := attempts[i].(progress := Indexed)];
      if marked.HalfWay? {
        return false;
      }
      attempts := attempts[i := attempts[i].(progress := Committed)];
      return true;
    }

    method SetProgress(i: nat, p: Progress)
      requires i < |attempts|
      modifies this
      ensures attempts == old(attempts)[i := old(attempts)[i].(progress := p)]
    {
      attempts := attempts[i := attempts[i].(progress := p)];
    }

    /** The body of the loop of `recover_causal_index_with` for an open change. It gets through exactly
        when the change settles; and also when it does not, nothing but this entry and the row of its
        path has moved, and both stand where a later run can take up. */
    method RecoverOne(i: nat, root: nat, fate: Fate) returns (ok: bool)
      requires Valid() && i < |attempts| && Open(attempts[i], root) && !attempts[i].progress.Indexed?
      requires fate.disk.Some? ==> Normal(fate.disk.value)
      modifies this, index
      ensures Valid()
      ensures ok <==> Settles(index.replica, old(index.State()), old(attempts)[i], fate)
      ensures |attempts| == old(|attempts|) && attempts == old(attempts)[i := attempts[i]]
      ensures ok ==> SettledTo(index.replica, old(index.State()), old(attempts)[i], index.State(), attempts[i])
      ensures Moved(index.replica, old(index.State()), old(attempts)[i], index.State(), attempts[i])
      ensures attempts[i].progress == NextProgress(index.replica, old(index.State()), old(attempts)[i], fate)
      ensures if Adopts(index.replica, old(index.State()), old(attempts)[i], fate)
              then AdoptOutcome(old(index.State()), old(attempts)[i].causal.value.record, index.State())
              else index.State() == old(index.State())
      ensures ok && Current(old(index.records), old(attempts)[i].causal.value.record.path) != Some(old(attempts)[i].causal.value.record) ==>
                attempts[i].progress ==
                if old(attempts)[i].progress.RollingBack? || fate.decision == Some(Refuse) then RolledBack
                else if fate.resumed.Drifted? && !old(attempts)[i].progress.Materialized? then Aborted
                else Committed
      ensures Stuck(old(index.State()), old(attempts)[i]) ==>
                !ok && attempts == old(attempts) && index.State() == old(index.State())
    {
      ghost var s, a := index.State(), attempts[i];
      ok := TryOne(i, root, fate);
      OutcomeMeans(index.replica, s, a, fate, index.State(), attempts[i]);
    }

    /** The same, as a function of the fate. */
    method TryOne(i: nat, root: nat, fate: Fate) returns (ok: bool)
      requires Valid() && i < |attempts| && Open(attempts[i], root) && !attempts[i].progress.Indexed?
      requires fate.disk.Some? ==> Normal(fate.disk.value)
      modifies this, index
      ensures Valid()
      ensures ok <==> Settles(index.replica, old(index.State()), old(attempts)[i], fate)
      ensures |attempts| == old(|attempts|) && attempts == old(attempts)[i := attempts[i]]
      ensures attempts[i] == old(attempts)[i].(progress := NextProgress(index.replica, old(index.State()), old(attempts)[i], fate))
      ensures if Adopts(index.replica, old(index.State()), old(attempts)[i], fate)
              then AdoptOutcome(old(index.State()), old(attempts)[i].causal.value.record, index.State())
              else index.State() == old(index.State())
    {
      hide Applicable, Shown, VerifyAdopted, AdoptOutcome;
      var attempt := attempts[i];
      var binding := attempt.causal.value;
      var current := Current(index.records, binding.record.path);
      if current == Some(binding.record) {
        ok := MarkIndexed(i, fate.marked);
        return ok;
      }
      if current != binding.precondition {
        return false;
      }
      if attempt.progress.RollingBack? {
        SetProgress(i, if fate.rolledBack then RolledBack else RollingBack);
        return fate.rolledBack;
      }
      var applicable := index.EnsureApplicable(binding.record);
      if applicable.Err? || fate.decision.None? {
        return false;
      }
      if fate.decision.value.Refuse? {
        SetProgress(i, if fate.rolledBack then RolledBack else RollingBack);
        return fate.rolledBack;
      }
      if !attempt.progress.Materialized? {
        match fate.resumed {
          case Interrupted(at) =>
            SetProgress(i, if at.Prepared? then attempt.progress else at);
            return false;
          case Drifted =>
            SetProgress(i, Aborted);
            return true;
          case Installed =>
            SetProgress(i, Materialized);
        }
      }
      var adopted := index.CommitRemote(binding.record, fate.disk);
      if adopted.Err? {
        return false;
      }
      ok := MarkIndexed(i, fate.marked);
    }

    /** `recover_causal_index_with` for one root, cut off anywhere or not. `trace` shows the index before
        each change and after the last. Whatever the result, every entry moves as `Stepped` allows. The
        run returns Ok if and only if it is not cut off while tidying and each open change settles in
        the index that the changes before it leave; then every causal change of the root is finished,
        and nothing is left for another run to do. A journal with nothing to do is left alone. */
    method Recover(root: nat, world: World) returns (ok: bool, ghost trace: seq<IndexState>)
      requires Valid() && Sane(world)
      modifies this, index
      ensures Valid()
      ensures Passed(index.replica, root, old(index.State()), old(attempts), trace, attempts)
      ensures |attempts| == old(|attempts|) && trace[|attempts|] == index.State()
      ensures ok <==> world.reach >= |attempts| && AllSettle(index.replica, root, old(attempts), trace, world.fates)
      ensures ok ==> Quiet(attempts, root) && Traced(index.replica, root, old(index.State()), old(attempts), trace, attempts)
      ensures ok ==> forall i :: 0 <= i < |attempts| && attempts[i].root == root ==>
                && attempts[i].progress != Indexed
                && (attempts[i].causal.Some? ==> attempts[i].progress in {Committed, Aborted, RolledBack})
                && (attempts[i].causal.None? ==> attempts[i].progress != Prepared && attempts[i].progress != Preserved)
      ensures forall i :: 0 <= i < |attempts| && old(attempts)[i].root != root ==> attempts[i] == old(attempts)[i]
      ensures Followed(index.replica, root, old(attempts), trace, attempts, world.fates)
      ensures ok ==> AllEnd(index.replica, root, old(attempts), trace, attempts, world.fates)
      ensures Quiet(old(attempts), root) && world.reach >= |attempts| ==>
                ok && attempts == old(attempts) && index.State() == old(index.State())
    {
      ghost var me, before, start := index.replica, attempts, index.State();
      var reach := if world.reach < |attempts| then world.reach else |attempts|;
      attempts := seq(|attempts|, i requires 0 <= i < |attempts| reads this => if i < reach then Tidy(attempts[i], root) else attempts[i]);
      if reach < |attempts| {
        trace := seq(|before| + 1, _ => start);
        CutWhileTidying(me, root, before, trace, attempts, world.fates);
        return false, trace;
      }
      ghost var tidied := attempts;
      assert forall i :: 0 <= i < |before| ==> tidied[i] == Tidy(before[i], root);
      QuietIsTidy(before, tidied, root);
      trace := [start];
      NothingRecovered(me, root, tidied, trace);
      NoneSettle(me, root, tidied, trace, tidied, world.fates);
      hide Quiet, Recovered, Settles, SettledTo, RecoveredUpTo, Traced, Tidy, Passed, Moved, Stepped, SettleUpTo, AllSettle, AllEnd, Followed, NextProgress, Adopts;
      for i := 0 to |attempts|
        invariant Valid() && |attempts| == |before| == |tidied|
        invariant |trace| == i + 1 && trace[0] == start && trace[i] == index.State()
        invariant attempts[i..] == tidied[i..]
        invariant RecoveredUpTo(me, root, tidied, trace, attempts, i)
        invariant SettleUpTo(me, root, tidied, trace, attempts, world.fates, i)
        invariant Quiet(before, root) ==> attempts == before && index.State() == start
      {
        assert attempts[i] == attempts[i..][0] == tidied[i..][0] == tidied[i];
        ghost var was := attempts;
        TidyIsNeverIndexed(before[i], root);
        QuietAt(before, root, i);
        if Open(attempts[i], root) {
          ok := RecoverOne(i, root, world.fates(i));
          if !ok {
            trace := FailedRun(me, root, before, tidied, trace, was, i, index.State(), attempts, world.fates);
            OtherRoots(me, root, start, before, trace, attempts);
            return false, trace;
          }
          OpenRecovered(me, root, trace[i], tidied[i], index.State(), attempts[i]);
        } else {
          ClosedRecovered(me, root, trace[i], tidied[i]);
        }
        ghost var longer := trace + [index.State()];
        ExtendRecovered(me, root, tidied, trace, was, i, longer, attempts);
        ExtendSettle(me, root, tidied, trace, was, i, longer, attempts, world.fates);
        assert attempts[i + 1..] == tidied[i + 1..] by { Tails(was, attempts, tidied, i); }
        trace := longer;
      }
      RecoveredIsQuiet(me, root, before, tidied, trace, attempts);
      SettledAll(me, root, before, tidied, trace, attempts, world.fates);
      OtherRoots(me, root, start, before, trace, attempts);
      QuietMeans(attempts, root);
      ok := true;
    }

    /** Run after run, until one returns Ok or none is left. However often the recovery is cut off or
        fails, the changes that were open at first stand as the journal says; and once a run returns
        Ok, each of them is finished, with its record in the index if it was committed and its
        precondition otherwise, and every other row is as at first. */
    method RecoverAgain(root: nat, worlds: seq<World>) returns (ok: bool)
      requires Valid() && forall k :: 0 <= k < |worlds| ==> Sane(worlds[k])
      requires Standing(root, index.State(), attempts, index.State(), attempts)
      modifies this, index
      ensures Valid()
      ensures Standing(root, old(index.State()), old(attempts), index.State(), attempts)
      ensures ok ==> Quiet(attempts, root) && Concluded(root, old(index.State()), old(attempts), index.State(), attempts)
      ensures |attempts| == old(|attempts|)
      ensures forall i :: 0 <= i < |attempts| && Open(old(attempts)[i], root) && !old(attempts)[i].progress.RollingBack? && ok && AllAdopt(worlds, i) ==>
                attempts[i].progress == Committed
      ensures forall i :: 0 <= i < |attempts| && Open(old(attempts)[i], root) && old(attempts)[i].progress in {Prepared, Preserved, RollingBack}
                          && ok && AllRefuse(worlds, i) ==>
                attempts[i].progress == RolledBack
      ensures forall i :: 0 <= i < |attempts| && Open(old(attempts)[i], root) && Stuck(old(index.State()), old(attempts)[i]) ==>
                !ok && attempts[i] == old(attempts)[i] && Stuck(index.State(), attempts[i])
    {
      hide Standing, Quiet, Passed, Traced, AllSettle, Concluded, Stuck, Directed, Followed, AllEnd;
      StartsDirected(root, attempts, worlds);
      ghost var first, origin := index.State(), attempts;
      ok := false;
      for k := 0 to |worlds|
        invariant Valid() && !ok && Standing(root, first, origin, index.State(), attempts)
        invariant Directed(root, origin, attempts, worlds)
      {
        ghost var s, before := index.State(), attempts;
        ghost var trace;
        ok, trace := Recover(root, worlds[k]);
        PassKeepsStanding(index.replica, root, first, origin, s, before, trace, attempts);
        PassKeepsDirection(index.replica, root, first, origin, s, before, trace, attempts, worlds, k);
        StuckBlocks(index.replica, root, first, origin, s, before, trace, attempts, worlds[k].fates);
        if ok {
          Conclude(root, first, origin, index.State(), attempts);
          DirectedEnd(root, first, origin, index.State(), attempts, worlds);
          break;
        }
      }
      StuckStays(root, first, origin, index.State(), attempts);
    }

    /** `handle_push_record` and `apply_causal_record`, cut off after `steps` durable steps: the entry of
        `prepare_path_change`, its binding, the captured predecessor, the installed target, the index
        row, and the two marks. */
    method ApplyUntilCrash(root: nat, record: SyncRecord, disk: Option<Entry>, steps: nat)
      requires Valid() && (disk.Some? ==> Normal(disk.value))
      modifies this, index
      ensures Valid()
      ensures var begins := Applicable(index.replica, old(index.State()), record) && record.Valid() && steps > 0;
              var adopts := begins && steps >= 5 && old(index.generation) < U64_MAX && Shown(record, disk);
              && (!begins ==> attempts == old(attempts))
              && (begins ==>
                    CrashPoint(index.replica, root, record, old(index.State()), old(attempts), index.State(), attempts,
                               steps >= 2, CutAt(steps, adopts)))
              && (if adopts then AdoptOutcome(old(index.State()), record, index.State()) else index.State() == old(index.State()))
    {
      var applicable := index.EnsureApplicable(record);
      if applicable.Err? || !record.Valid() || steps == 0 {
        return;
      }
      var binding := Binding(record, Current(index.records, record.path));
      var n := |attempts|;
      attempts := attempts + [Attempt(root, None, Prepared)];
      if steps == 1 {
        return;
      }
      attempts := attempts[n := attempts[n].(causal := Some(binding))];
      if steps == 2 {
        return;
      }
      SetProgress(n, Preserved);
      if steps == 3 {
        return;
      }
      SetProgress(n, Materialized);
      if steps == 4 {
        return;
      }
      var adopted := index.CommitRemote(record, disk);
      if adopted.Err? || steps == 5 {
        return;
      }
      SetProgress(n, Indexed);
      if steps == 6 {
        return;
      }
      SetProgress(n, Committed);
    }

    /** A change applied after an orderly start, a crash anywhere in it, and any number of recovery runs,
        each of which may be cut off as well, until one returns Ok. Then the index holds the new record
        if the change is committed and what it held before if it was given up, and no other row has
        changed. If the record was already the current one and its reinstallation was cut off after it
        was bound and before the journal says it is installed, no run ever returns Ok; otherwise the
        first run that nothing outside hinders does. */
    method CrashAndRecover(root: nat, record: SyncRecord, disk: Option<Entry>, steps: nat, worlds: seq<World>)
      returns (journaled: bool, bound: bool, cut: Progress, ok: bool)
      requires Valid() && (disk.Some? ==> Normal(disk.value)) && Quiet(attempts, root)
      requires forall k :: 0 <= k < |worlds| ==> Sane(worlds[k])
      modifies this, index
      ensures Valid()
      ensures journaled <==> Applicable(index.replica, old(index.State()), record) && record.Valid() && steps > 0
      ensures journaled ==>
                bound == (steps >= 2) && cut == CutAt(steps, steps >= 5 && old(index.generation) < U64_MAX && Shown(record, disk))
      ensures !journaled ==> attempts == old(attempts) && index.State() == old(index.State())
      ensures journaled && bound && ok && AllAdopt(worlds, old(|attempts|)) ==>
                && |attempts| == old(|attempts|) + 1
                && attempts[old(|attempts|)].progress == Committed && Current(index.records, record.path) == Some(record)
      ensures journaled && bound && ok && cut in {Prepared, Preserved} && AllRefuse(worlds, old(|attempts|)) ==>
                && |attempts| == old(|attempts|) + 1
                && attempts[old(|attempts|)].progress == RolledBack && Current(index.records, record.path) == Current(old(index.records), record.path)
      ensures journaled && ok ==>
                && |attempts| == old(|attempts|) + 1 && Quiet(attempts, root)
                && Current(index.records, record.path) ==
                   (if attempts[old(|attempts|)].progress.Committed? then Some(record)
                    else Current(old(index.records), record.path))
                && forall p :: p != record.path ==> Current(index.records, p) == Current(old(index.records), p)
      ensures journaled && Sticks(old(index.State()), record, bound, cut) ==> !ok
      ensures journaled && !Sticks(old(index.State()), record, bound, cut) ==>
                forall k :: 0 <= k < |worlds| && Unhindered(old(index.State()), record, worlds[k], old(|attempts|)) ==> ok
    {
      ghost var me, before, start := index.replica, attempts, index.State();
      var n := |attempts|;
      ApplyUntilCrash(root, record, disk, steps);
      if |attempts| == n {
        return false, false, Prepared, true;
      }
      journaled, bound, cut := true, attempts[n].causal.Some?, attempts[n].progress;
      ghost var crashed, middle := attempts, index.State();
      assert CrashPoint(me, root, record, start, before, middle, crashed, bound, cut);
      CrashStands(me, root, record, start, before, middle, crashed, bound, cut);
      hide Standing, Quiet, Passed, Traced, AllSettle, CrashPoint, Unhindered, Sticks, Concluded, Resting, Stuck, Directed, Followed,
        AllEnd, AllAdopt, AllRefuse;
      StartsDirected(root, attempts, worlds);
      ok := false;
      for k := 0 to |worlds|
        invariant Valid() && !ok && |attempts| == n + 1
        invariant Standing(root, middle, crashed, index.State(), attempts)
        invariant Resting(start, record, index.State()) && Directed(root, crashed, attempts, worlds)
        invariant !Sticks(start, record, bound, cut) ==>
                    forall j :: 0 <= j < k ==> !Unhindered(start, record, worlds[j], n)
      {
        ghost var s, was := index.State(), attempts;
        ghost var trace;
        ok, trace := Recover(root, worlds[k]);
        PassKeepsStanding(me, root, middle, crashed, s, was, trace, attempts);
        StuckBlocks(me, root, middle, crashed, s, was, trace, attempts, worlds[k].fates);
        PassKeepsDirection(me, root, middle, crashed, s, was, trace, attempts, worlds, k);
        PassRests(me, root, record, start, before, middle, crashed, bound, cut, s, was, trace, attempts);
        UnhinderedSettles(me, root, record, start, before, middle, crashed, bound, cut, s, was, trace, attempts, worlds[k]);
        SticksIsStuck(me, root, record, start, before, middle, crashed, bound, cut);
        if ok {
          Conclude(root, middle, crashed, index.State(), attempts);
          CrashDirected(me, root, record, start, before, middle, crashed, bound, cut, index.State(), attempts, worlds);
          break;
        }
      }
      CrashConcludes(me, root, record, start, before, middle, crashed, bound, cut, index.State(), attempts);
    }
  }

  /** What the journal says after so many steps of an application. */
  function CutAt(steps: nat, adopts: bool): Progress {
    if steps <= 2 then Prepared
    else if steps == 3 then Preserved
    else if steps <= 5 || !adopts then Materialized
    else if steps == 6 then Indexed
    else Committed
  }

  /** How journal and index may stand when the application of `record` is cut off. */
  ghost predicate CrashPoint(me: ReplicaId, root: nat, record: SyncRecord, start: IndexState, before: seq<Attempt>,
                             s: IndexState, attempts: seq<Attempt>, bound: bool, p: Progress) {
    && record.Valid() && Applicable(me, start, record)
    && attempts == before + [Attempt(root, if bound then Some(Binding(record, Current(start.records, record.path))) else None, p)]
    && (!bound ==> s == start && p == Prepared)
    && (|| (s == start && p in {Prepared, Preserved, Materialized})
        || (AdoptOutcome(start, record, s) && p in {Materialized, Indexed, Committed}))
  }

  /** The record is the current row, and the change may not be marked. */
  ghost predicate Stuck(s: IndexState, a: Attempt) {
    && a.causal.Some? && Current(s.records, a.causal.value.record.path) == Some(a.causal.value.record)
    && (a.progress.Prepared? || a.progress.Preserved? || a.progress.RollingBack?)
  }

  /** An application that is cut off leaves such a change behind. */
  ghost predicate Sticks(start: IndexState, record: SyncRecord, bound: bool, cut: Progress) {
    bound && (cut.Prepared? || cut.Preserved?) && Current(start.records, record.path) == Some(record)
  }

  /** A file that the replica already holds is offered again and passes the causal check. If its
      reinstallation is cut off before the journal says it is installed, every later run of the
      recovery, however it goes, returns an error and leaves the change as it is. */
  lemma ReinstallationSticks(me: ReplicaId) returns (s: IndexState, record: SyncRecord, attempts: seq<Attempt>)
    ensures record.Valid() && CrashPoint(me, 0, record, s, [], s, attempts, true, Prepared)
    ensures Standing(0, s, attempts, s, attempts)
    ensures forall trace, now :: Passed(me, 0, s, attempts, trace, now) ==>
              && now == attempts && trace[1] == s
              && forall fates :: !AllSettle(me, 0, attempts, trace, fates)
  {
    var path := WirePath(["a"]);
    var row := PathRecord(path, File, None, 1, None, false, Some(7), map[me := 1], false, 1);
    s, record := IndexState(map[path := row], 1, 1), row.ToSync();
    var a := Attempt(0, Some(Binding(record, Current(s.records, record.path))), Prepared);
    attempts := [a];
    assert Relation(record.version, record.version) == Equal;
    assert attempts == [] + [a];
    forall trace, now | Passed(me, 0, s, attempts, trace, now)
      ensures now == attempts && trace[1] == s
      ensures forall fates :: !AllSettle(me, 0, attempts, trace, fates)
    {
      assert Stepped(me, 0, trace[0], attempts[0], trace[1], now[0]);
      forall fates ensures !AllSettle(me, 0, attempts, trace, fates) {
        assert !Settles(me, trace[0], Tidy(attempts[0], 0), fates(0));
      }
    }
  }

  /** The store works, the caller decides, and the disk shows the target if it was installed. */
  ghost predicate Favourable(s: IndexState, record: SyncRecord, fate: Fate) {
    && fate.decision.Some? && fate.rolledBack && fate.marked.Complete? && !fate.resumed.Interrupted?
    && Adoptable(s, record, fate)
  }

  /** Nothing outside hinders the run, for the change with number `n`. */
  ghost predicate Unhindered(s: IndexState, record: SyncRecord, w: World, n: nat) {
    w.reach > n && Favourable(s, record, w.fates(n))
  }

  // ---------------------------------------------------------------- one run

  /** What any run does, change by change; the journal keeps its entries. */
  ghost predicate Passed(me: ReplicaId, root: nat, start: IndexState, before: seq<Attempt>, trace: seq<IndexState>, now: seq<Attempt>) {
    && |now| == |before| && |trace| == |before| + 1 && trace[0] == start
    && forall i :: 0 <= i < |before| ==> Stepped(me, root, trace[i], before[i], trace[i + 1], now[i])
  }

  /** What a run does that returns Ok. */
  ghost predicate Traced(me: ReplicaId, root: nat, start: IndexState, before: seq<Attempt>, trace: seq<IndexState>, now: seq<Attempt>) {
    && |now| == |before| && |trace| == |before| + 1 && trace[0] == start
    && forall i :: 0 <= i < |before| ==> Recovered(me, root, trace[i], Tidy(before[i], root), trace[i + 1], now[i])
  }

  /** Each open change settles in the index that the changes before it leave. */
  ghost predicate AllSettle(me: ReplicaId, root: nat, before: seq<Attempt>, trace: seq<IndexState>, fates: nat -> Fate) {
    |trace| == |before| + 1 && forall i :: 0 <= i < |before| && Open(Tidy(before[i], root), root) ==>
                                 Settles(me, trace[i], Tidy(before[i], root), fates(i))
  }

  /** Each open change ends where its fate leads. */
  ghost predicate AllEnd(me: ReplicaId, root: nat, before: seq<Attempt>, trace: seq<IndexState>, now: seq<Attempt>, fates: nat -> Fate) {
    && |trace| == |before| + 1 && |now| == |before|
    && forall i :: 0 <= i < |before| && Open(Tidy(before[i], root), root) ==>
         now[i].progress == NextProgress(me, trace[i], Tidy(before[i], root), fates(i))
  }

  /** The same for a run that may not have reached every change. */
  ghost predicate Followed(me: ReplicaId, root: nat, before: seq<Attempt>, trace: seq<IndexState>, now: seq<Attempt>, fates: nat -> Fate) {
    && |trace| == |before| + 1 && |now| == |before|
    && forall i :: 0 <= i < |before| && Open(Tidy(before[i], root), root) ==>
         now[i] == before[i] || now[i].progress == NextProgress(me, trace[i], Tidy(before[i], root), fates(i))
  }

  lemma OtherRoots(me: ReplicaId, root: nat, start: IndexState, before: seq<Attempt>, trace: seq<IndexState>, now: seq<Attempt>)
    requires Passed(me, root, start, before, trace, now)
    ensures forall i :: 0 <= i < |before| && before[i].root != root ==> now[i] == before[i]
  {
    forall i | 0 <= i < |before| && before[i].root != root ensures now[i] == before[i] {
      assert Stepped(me, root, trace[i], before[i], trace[i + 1], now[i]);
    }
  }

  lemma QuietMeans(attempts: seq<Attempt>, root: nat)
    requires Quiet(attempts, root)
    ensures forall i :: 0 <= i < |attempts| && attempts[i].root == root ==>
              && attempts[i].progress != Indexed
              && (attempts[i].causal.Some? ==> attempts[i].progress in {Committed, Aborted, RolledBack})
              && (attempts[i].causal.None? ==> attempts[i].progress != Prepared && attempts[i].progress != Preserved)
  {
    forall i | 0 <= i < |attempts| && attempts[i].root == root
      ensures attempts[i].progress != Indexed
      ensures attempts[i].causal.Some? ==> attempts[i].progress in {Committed, Aborted, RolledBack}
      ensures attempts[i].causal.None? ==> attempts[i].progress != Prepared && attempts[i].progress != Preserved
    {
      assert Tidy(attempts[i], root) == attempts[i] && !Open(attempts[i], root);
    }
  }

  lemma CutWhileTidying(me: ReplicaId, root: nat, before: seq<Attempt>, trace: seq<IndexState>, now: seq<Attempt>, fates: nat -> Fate)
    requires |trace| == |before| + 1 && |now| == |before| && forall i :: 0 <= i < |before| ==> now[i] == before[i] || now[i] == Tidy(before[i], root)
    ensures Followed(me, root, before, trace, now, fates)
    ensures forall i :: 0 <= i < |before| && before[i].root != root ==> now[i] == before[i]
  {
  }

  ghost predicate RecoveredUpTo(me: ReplicaId, root: nat, tidied: seq<Attempt>, trace: seq<IndexState>, now: seq<Attempt>, n: nat) {
    && n <= |tidied| == |now| && n < |trace|
    && forall i :: 0 <= i < n ==> Recovered(me, root, trace[i], tidied[i], trace[i + 1], now[i])
  }

  ghost predicate SettleUpTo(me: ReplicaId, root: nat, tidied: seq<Attempt>, trace: seq<IndexState>, now: seq<Attempt>,
                             fates: nat -> Fate, n: nat) {
    && n <= |tidied| == |now| && n <= |trace|
    && forall i :: 0 <= i < n && Open(tidied[i], root) ==>
         Settles(me, trace[i], tidied[i], fates(i)) && now[i].progress == NextProgress(me, trace[i], tidied[i], fates(i))
  }

  lemma TidyIsNeverIndexed(a: Attempt, root: nat)
    ensures Open(Tidy(a, root), root) ==> !Tidy(a, root).progress.Indexed?
  {
  }

  lemma QuietIsTidy(before: seq<Attempt>, tidied: seq<Attempt>, root: nat)
    requires |tidied| == |before| && forall i :: 0 <= i < |before| ==> tidied[i] == Tidy(before[i], root)
    ensures Quiet(before, root) ==> tidied == before
  {
  }

  lemma QuietAt(before: seq<Attempt>, root: nat, i: nat)
    requires i < |before|
    ensures Quiet(before, root) ==> !Open(before[i], root) && Tidy(before[i], root) == before[i]
  {
  }

  lemma NothingRecovered(me: ReplicaId, root: nat, tidied: seq<Attempt>, trace: seq<IndexState>)
    requires |trace| == 1
    ensures RecoveredUpTo(me, root, tidied, trace, tidied, 0)
  {
  }

  lemma NoneSettle(me: ReplicaId, root: nat, tidied: seq<Attempt>, trace: seq<IndexState>, now: seq<Attempt>, fates: nat -> Fate)
    requires |trace| == 1 && |now| == |tidied|
    ensures SettleUpTo(me, root, tidied, trace, now, fates, 0)
  {
  }

  lemma OpenRecovered(me: ReplicaId, root: nat, s: IndexState, a: Attempt, t: IndexState, b: Attempt)
    requires Open(a, root) && SettledTo(me, s, a, t, b) && Moved(me, s, a, t, b)
    ensures Recovered(me, root, s, a, t, b)
  {
  }

  lemma ClosedRecovered(me: ReplicaId, root: nat, s: IndexState, a: Attempt)
    requires !Open(a, root)
    ensures Recovered(me, root, s, a, s, a)
  {
  }

  lemma ExtendRecovered(me: ReplicaId, root: nat, tidied: seq<Attempt>, trace: seq<IndexState>, was: seq<Attempt>, n: nat,
                        longer: seq<IndexState>, now: seq<Attempt>)
    requires RecoveredUpTo(me, root, tidied, trace, was, n) && |trace| == n + 1 && |longer| == n + 2 && longer[..n + 1] == trace
    requires n < |tidied| && |now| == |was| && now == was[n := now[n]]
    requires Recovered(me, root, longer[n], tidied[n], longer[n + 1], now[n])
    ensures RecoveredUpTo(me, root, tidied, longer, now, n + 1)
  {
    hide Recovered;
    assert forall i :: 0 <= i <= n ==> longer[i] == longer[..n + 1][i];
  }

  lemma ExtendSettle(me: ReplicaId, root: nat, tidied: seq<Attempt>, trace: seq<IndexState>, was: seq<Attempt>, n: nat,
                     longer: seq<IndexState>, now: seq<Attempt>, fates: nat -> Fate)
    requires SettleUpTo(me, root, tidied, trace, was, fates, n) && |trace| == n + 1 && |longer| == n + 2 && longer[..n + 1] == trace
    requires n < |tidied| && |now| == |was| && now == was[n := now[n]]
    requires Open(tidied[n], root) ==>
               Settles(me, trace[n], tidied[n], fates(n)) && now[n].progress == NextProgress(me, trace[n], tidied[n], fates(n))
    ensures SettleUpTo(me, root, tidied, longer, now, fates, n + 1)
  {
    hide Settles, NextProgress;
    assert forall i :: 0 <= i <= n ==> longer[i] == longer[..n + 1][i];
  }

  lemma Tails(was: seq<Attempt>, now: seq<Attempt>, tidied: seq<Attempt>, i: nat)
    requires i < |was| == |now| == |tidied| && now == was[i := now[i]] && was[i..] == tidied[i..]
    ensures now[i + 1..] == was[i + 1..] == tidied[i + 1..]
  {
    assert was[i..][1..] == was[i + 1..] && tidied[i..][1..] == tidied[i + 1..];
  }

  /** To settle is one of the ways to move. */
  lemma RecoveredIsStep(me: ReplicaId, root: nat, s: IndexState, a: Attempt, t: IndexState, b: Attempt)
    requires Recovered(me, root, s, Tidy(a, root), t, b)
    ensures Stepped(me, root, s, a, t, b)
  {
  }

  /** A run that fails at change `n`: the changes before it are recovered, those after it untouched. */
  lemma FailedRun(me: ReplicaId, root: nat, before: seq<Attempt>, tidied: seq<Attempt>, trace: seq<IndexState>, was: seq<Attempt>,
                  n: nat, t: IndexState, now: seq<Attempt>, fates: nat -> Fate) returns (whole: seq<IndexState>)
    requires |tidied| == |before| && forall i :: 0 <= i < |before| ==> tidied[i] == Tidy(before[i], root)
    requires n < |before| && |trace| == n + 1 && |was| == |now| == |before| && was[n..] == tidied[n..] && now == was[n := now[n]]
    requires RecoveredUpTo(me, root, tidied, trace, was, n) && SettleUpTo(me, root, tidied, trace, was, fates, n)
    requires Open(tidied[n], root) && Moved(me, trace[n], tidied[n], t, now[n]) && !Settles(me, trace[n], tidied[n], fates(n))
    requires now[n].progress == NextProgress(me, trace[n], tidied[n], fates(n))
    ensures Passed(me, root, trace[0], before, whole, now) && whole[|before|] == t
    ensures !AllSettle(me, root, before, whole, fates) && Followed(me, root, before, whole, now, fates)
  {
    hide Recovered, Settles, Moved, NextProgress;
    whole := trace + seq(|before| - n, _ => t);
    forall i | 0 <= i < |before| ensures Stepped(me, root, whole[i], before[i], whole[i + 1], now[i]) {
      if i < n {
        assert whole[i] == trace[i] && whole[i + 1] == trace[i + 1] && now[i] == was[i];
        RecoveredIsStep(me, root, trace[i], before[i], trace[i + 1], was[i]);
      } else if i > n {
        assert now[i] == was[i] == was[n..][i - n] == tidied[n..][i - n] == tidied[i];
      }
    }
    forall i | 0 <= i < |before| && Open(Tidy(before[i], root), root)
      ensures now[i] == before[i] || now[i].progress == NextProgress(me, whole[i], Tidy(before[i], root), fates(i))
    {
      if i < n {
        assert whole[i] == trace[i] && now[i] == was[i];
      } else if i > n {
        assert now[i] == was[i] == was[n..][i - n] == tidied[n..][i - n] == tidied[i];
      }
    }
  }

  lemma RecoveredIsQuiet(me: ReplicaId, root: nat, before: seq<Attempt>, tidied: seq<Attempt>, trace: seq<IndexState>, now: seq<Attempt>)
    requires |tidied| == |before| && forall i :: 0 <= i < |before| ==> tidied[i] == Tidy(before[i], root)
    requires |trace| == |before| + 1 && RecoveredUpTo(me, root, tidied, trace, now, |before|)
    ensures Quiet(now, root) && Traced(me, root, trace[0], before, trace, now)
  {
    forall i | 0 <= i < |now| ensures Tidy(now[i], root) == now[i] && !Open(now[i], root) {
      assert Recovered(me, root, trace[i], tidied[i], trace[i + 1], now[i]);
    }
  }

  lemma SettledAll(me: ReplicaId, root: nat, before: seq<Attempt>, tidied: seq<Attempt>, trace: seq<IndexState>, now: seq<Attempt>,
                   fates: nat -> Fate)
    requires |tidied| == |before| && forall i :: 0 <= i < |before| ==> tidied[i] == Tidy(before[i], root)
    requires |trace| == |before| + 1 && SettleUpTo(me, root, tidied, trace, now, fates, |before|)
    requires RecoveredUpTo(me, root, tidied, trace, now, |before|)
    ensures AllSettle(me, root, before, trace, fates) && Passed(me, root, trace[0], before, trace, now)
    ensures AllEnd(me, root, before, trace, now, fates) && Followed(me, root, before, trace, now, fates)
  {
    hide Settles, Recovered, Stepped, NextProgress;
    forall i | 0 <= i < |before| ensures Stepped(me, root, trace[i], before[i], trace[i + 1], now[i]) {
      RecoveredIsStep(me, root, trace[i], before[i], trace[i + 1], now[i]);
    }
  }

  // ---------------------------------------------------------------- what a run leaves

  /** The change concerns the path. */
  predicate Concerns(a: Attempt, root: nat, p: WirePath) {
    Open(a, root) && a.causal.value.record.path == p
  }

  /** Between changes of a path its row stays, in every run. */
  lemma {:induction false} RowStays(me: ReplicaId, root: nat, start: IndexState, before: seq<Attempt>, trace: seq<IndexState>,
                                    now: seq<Attempt>, p: WirePath, m: nat, n: nat)
    requires Passed(me, root, start, before, trace, now) && m <= n <= |before|
    requires forall i :: m <= i < n ==> !Concerns(Tidy(before[i], root), root, p)
    ensures Current(trace[n].records, p) == Current(trace[m].records, p)
    decreases n
  {
    if m < n {
      RowStays(me, root, start, before, trace, now, p, m, n - 1);
      assert Stepped(me, root, trace[n - 1], before[n - 1], trace[n], now[n - 1]);
    }
  }

  /** After a run that returned Ok: for an open change that no later open change of the same path
      follows, the index holds its record if it was committed, and its precondition if it was given
      up. Several open changes of one path settle one after the other, so only the last of them is
      visible in the index. */
  lemma IndexMatchesJournal(me: ReplicaId, root: nat, start: IndexState, before: seq<Attempt>, trace: seq<IndexState>,
                            now: seq<Attempt>, k: nat)
    requires Passed(me, root, start, before, trace, now) && Traced(me, root, start, before, trace, now)
    requires k < |before| && Open(Tidy(before[k], root), root)
    requires var p := before[k].causal.value.record.path;
             forall i :: k < i < |before| ==> !Concerns(Tidy(before[i], root), root, p)
    ensures Finished(now[k].progress)
    ensures var b := before[k].causal.value;
            Current(trace[|before|].records, b.record.path) ==
            if now[k].progress.Committed? then Some(b.record) else b.precondition
  {
    var b := before[k].causal.value;
    assert Recovered(me, root, trace[k], Tidy(before[k], root), trace[k + 1], now[k]);
    RowStays(me, root, start, before, trace, now, b.record.path, k + 1, |before|);
  }

  /** A path without an open change keeps its row, in every run. */
  lemma UntouchedPath(me: ReplicaId, root: nat, start: IndexState, before: seq<Attempt>, trace: seq<IndexState>,
                      now: seq<Attempt>, p: WirePath)
    requires Passed(me, root, start, before, trace, now)
    requires forall i :: 0 <= i < |before| ==> !Concerns(Tidy(before[i], root), root, p)
    ensures Current(trace[|before|].records, p) == Current(start.records, p)
  {
    RowStays(me, root, start, before, trace, now, p, 0, |before|);
  }

  // ---------------------------------------------------------------- any number of runs

  /** The row of the path is what the progress of the change says. */
  ghost predicate StandsAt(s: IndexState, a: Attempt)
    requires a.causal.Some?
  {
    var b := a.causal.value;
    var row := Current(s.records, b.record.path);
    match a.progress
    case Materialized => row == b.precondition || row == Some(b.record)
    case Indexed => row == Some(b.record)
    case Committed => row == Some(b.record)
    case _ => row == b.precondition
  }

  /** An entry, against what it was at first. */
  ghost predicate EntryStands(root: nat, first: IndexState, o: Attempt, s: IndexState, a: Attempt) {
    if Open(Tidy(o, root), root) then
      && a.(progress := o.progress) == o && StandsAt(s, a)
      && (Stuck(s, a) <==> Stuck(first, o)) && (Stuck(s, a) ==> a == o)
    else a == o || a == Tidy(o, root)
  }

  /** The changes that were open at first are of different paths. */
  ghost predicate OnePerPath(root: nat, origin: seq<Attempt>) {
    forall i, j :: 0 <= i < |origin| && 0 <= j < |origin| && i != j && Open(Tidy(origin[i], root), root) && Open(Tidy(origin[j], root), root) ==>
      origin[i].causal.value.record.path != origin[j].causal.value.record.path
  }

  /** How journal and index stand, given how they stood at first: each change that was open then as
      its progress says, every other entry as it was or tidied, every other row as it was. */
  ghost predicate Standing(root: nat, first: IndexState, origin: seq<Attempt>, s: IndexState, attempts: seq<Attempt>) {
    && |attempts| == |origin| && OnePerPath(root, origin)
    && (forall i :: 0 <= i < |origin| ==> EntryStands(root, first, origin[i], s, attempts[i]))
    && (forall p :: (forall i :: 0 <= i < |origin| ==> !Concerns(Tidy(origin[i], root), root, p)) ==>
          Current(s.records, p) == Current(first.records, p))
  }

  lemma StepStands(me: ReplicaId, root: nat, first: IndexState, origin: seq<Attempt>, s: IndexState, attempts: seq<Attempt>,
                   k: nat, t: IndexState, b: Attempt)
    requires Standing(root, first, origin, s, attempts) && k < |attempts| && Stepped(me, root, s, attempts[k], t, b)
    ensures Standing(root, first, origin, t, attempts[k := b])
  {
    var now := attempts[k := b];
    OwnEntryStands(me, root, first, origin[k], s, attempts[k], t, b);
    forall i | 0 <= i < |origin| && i != k ensures EntryStands(root, first, origin[i], t, now[i]) {
      OtherEntryStands(me, root, first, origin, s, attempts, k, t, b, i);
    }
    forall p | forall i :: 0 <= i < |origin| ==> !Concerns(Tidy(origin[i], root), root, p)
      ensures Current(t.records, p) == Current(first.records, p)
    {
      assert !Concerns(Tidy(origin[k], root), root, p);
      assert EntryStands(root, first, origin[k], s, attempts[k]);
      OnlyOwnRow(me, root, s, attempts[k], t, b, p);
    }
  }

  /** A step moves no row but that of its change. */
  lemma OnlyOwnRow(me: ReplicaId, root: nat, s: IndexState, a: Attempt, t: IndexState, b: Attempt, p: WirePath)
    requires Stepped(me, root, s, a, t, b) && !Concerns(Tidy(a, root), root, p)
    ensures Current(t.records, p) == Current(s.records, p)
  {
  }

  lemma OwnEntryStands(me: ReplicaId, root: nat, first: IndexState, o: Attempt, s: IndexState, a: Attempt, t: IndexState, b: Attempt)
    requires EntryStands(root, first, o, s, a) && Stepped(me, root, s, a, t, b)
    ensures EntryStands(root, first, o, t, b)
  {
  }

  lemma OtherEntryStands(me: ReplicaId, root: nat, first: IndexState, origin: seq<Attempt>, s: IndexState, attempts: seq<Attempt>,
                         k: nat, t: IndexState, b: Attempt, i: nat)
    requires Standing(root, first, origin, s, attempts) && k < |attempts| && Stepped(me, root, s, attempts[k], t, b)
    requires i < |origin| && i != k
    ensures EntryStands(root, first, origin[i], t, attempts[i])
  {
    assert EntryStands(root, first, origin[i], s, attempts[i]) && EntryStands(root, first, origin[k], s, attempts[k]);
    if Open(Tidy(origin[i], root), root) {
      var p := origin[i].causal.value.record.path;
      assert !Concerns(Tidy(attempts[k], root), root, p);
      OnlyOwnRow(me, root, s, attempts[k], t, b, p);
    }
  }

  /** In the middle of a run. */
  lemma {:induction false} StandingAlong(me: ReplicaId, root: nat, first: IndexState, origin: seq<Attempt>, s: IndexState,
                                         before: seq<Attempt>, trace: seq<IndexState>, now: seq<Attempt>, n: nat)
    requires Standing(root, first, origin, s, before) && Passed(me, root, s, before, trace, now) && n <= |before|
    ensures Standing(root, first, origin, trace[n], now[..n] + before[n..])
  {
    hide Standing, Stepped;
    if n == 0 {
      assert now[..0] + before[0..] == before;
    } else {
      StandingAlong(me, root, first, origin, s, before, trace, now, n - 1);
      var mixed := now[..n - 1] + before[n - 1..];
      StepStands(me, root, first, origin, trace[n - 1], mixed, n - 1, trace[n], now[n - 1]);
      assert mixed[n - 1 := now[n - 1]] == now[..n] + before[n..];
    }
  }

  /** Every run, Ok or not, keeps journal and index standing. */
  lemma PassKeepsStanding(me: ReplicaId, root: nat, first: IndexState, origin: seq<Attempt>, s: IndexState,
                          before: seq<Attempt>, trace: seq<IndexState>, now: seq<Attempt>)
    requires Standing(root, first, origin, s, before) && Passed(me, root, s, before, trace, now)
    ensures Standing(root, first, origin, trace[|before|], now)
  {
    hide Standing;
    StandingAlong(me, root, first, origin, s, before, trace, now, |before|);
    assert now[..|before|] + before[|before|..] == now;
  }

  /** A stuck change keeps every run from returning Ok. */
  lemma StuckBlocks(me: ReplicaId, root: nat, first: IndexState, origin: seq<Attempt>, s: IndexState,
                    before: seq<Attempt>, trace: seq<IndexState>, now: seq<Attempt>, fates: nat -> Fate)
    requires Standing(root, first, origin, s, before) && Passed(me, root, s, before, trace, now)
    ensures AllSettle(me, root, before, trace, fates) ==>
              forall i :: 0 <= i < |origin| && Open(origin[i], root) ==> !Stuck(first, origin[i])
  {
    hide Passed;
    if AllSettle(me, root, before, trace, fates) {
      forall i | 0 <= i < |origin| && Open(origin[i], root) ensures !Stuck(first, origin[i]) {
        var mixed := MixedAt(me, root, s, before, trace, now, i);
        StandingAlong(me, root, first, origin, s, before, trace, now, i);
        StuckStays(root, first, origin, s, before);
        StuckStays(root, first, origin, trace[i], mixed);
      }
    }
  }

  lemma MixedAt(me: ReplicaId, root: nat, s: IndexState, before: seq<Attempt>, trace: seq<IndexState>, now: seq<Attempt>, i: nat)
    returns (mixed: seq<Attempt>)
    requires Passed(me, root, s, before, trace, now) && i < |before|
    ensures mixed == now[..i] + before[i..] && |mixed| == |before| && mixed[i] == before[i]
  {
    mixed := now[..i] + before[i..];
  }

  lemma StuckAt(root: nat, first: IndexState, origin: seq<Attempt>, s: IndexState, attempts: seq<Attempt>, i: nat)
    requires Standing(root, first, origin, s, attempts) && i < |origin| && Open(origin[i], root) && Stuck(first, origin[i])
    ensures attempts[i] == origin[i] && Stuck(s, attempts[i]) && Tidy(origin[i], root) == origin[i]
  {
    assert EntryStands(root, first, origin[i], s, attempts[i]);
  }

  lemma StuckStays(root: nat, first: IndexState, origin: seq<Attempt>, s: IndexState, attempts: seq<Attempt>)
    requires Standing(root, first, origin, s, attempts)
    ensures |attempts| == |origin|
    ensures forall i :: 0 <= i < |origin| && Open(origin[i], root) && Stuck(first, origin[i]) ==>
              attempts[i] == origin[i] && Stuck(s, attempts[i])
  {
    forall i | 0 <= i < |origin| && Open(origin[i], root) && Stuck(first, origin[i])
      ensures attempts[i] == origin[i] && Stuck(s, attempts[i])
    {
      StuckAt(root, first, origin, s, attempts, i);
    }
  }

  /** All is finished: each change that was open at first has its record in the index if it was
      committed and its precondition otherwise, and every other row is as at first. */
  ghost predicate Concluded(root: nat, first: IndexState, origin: seq<Attempt>, s: IndexState, attempts: seq<Attempt>) {
    && |attempts| == |origin|
    && (forall i :: 0 <= i < |origin| && Open(Tidy(origin[i], root), root) ==>
          var b := origin[i].causal.value;
          && attempts[i].(progress := origin[i].progress) == origin[i] && Finished(attempts[i].progress)
          && Current(s.records, b.record.path) == if attempts[i].progress.Committed? then Some(b.record) else b.precondition)
    && (forall p :: (forall i :: 0 <= i < |origin| ==> !Concerns(Tidy(origin[i], root), root, p)) ==>
          Current(s.records, p) == Current(first.records, p))
  }

  lemma Conclude(root: nat, first: IndexState, origin: seq<Attempt>, s: IndexState, attempts: seq<Attempt>)
    requires Standing(root, first, origin, s, attempts) && Quiet(attempts, root)
    ensures Concluded(root, first, origin, s, attempts)
  {
    forall i | 0 <= i < |origin| && Open(Tidy(origin[i], root), root)
      ensures var b := origin[i].causal.value;
              && attempts[i].(progress := origin[i].progress) == origin[i] && Finished(attempts[i].progress)
              && Current(s.records, b.record.path) == if attempts[i].progress.Committed? then Some(b.record) else b.precondition
    {
      assert EntryStands(root, first, origin[i], s, attempts[i]);
      assert Tidy(attempts[i], root) == attempts[i] && !Open(attempts[i], root);
    }
  }

  // ---------------------------------------------------------------- which end a change comes to

  /** The caller never refuses the change, and the store never gives it up. */
  ghost predicate AllAdopt(worlds: seq<World>, i: nat) {
    forall k :: 0 <= k < |worlds| ==>
      var fate := worlds[k].fates(i);
      fate.decision != Some(Refuse) && !fate.resumed.Drifted? && fate.resumed != Interrupted(Aborted)
  }

  /** The caller never agrees to the change. */
  ghost predicate AllRefuse(worlds: seq<World>, i: nat) {
    forall k :: 0 <= k < |worlds| ==> worlds[k].fates(i).decision != Some(Adopt)
  }

  /** The change is on its way into the index. */
  predicate Onward(a: Attempt) {
    a.progress in {Prepared, Preserved, Materialized, Indexed, Committed}
  }

  /** The change is not installed, or on its way back. */
  predicate Backward(a: Attempt) {
    a.progress in {Prepared, Preserved, RollingBack, RolledBack}
  }

  /** Changes that are never refused stay on their way, and those never agreed to never get there. */
  ghost predicate Directed(root: nat, origin: seq<Attempt>, attempts: seq<Attempt>, worlds: seq<World>) {
    && |attempts| == |origin|
    && (forall i :: 0 <= i < |origin| && Mine(origin[i], root) && Onward(origin[i]) && AllAdopt(worlds, i) ==> Onward(attempts[i]))
    && (forall i :: 0 <= i < |origin| && Mine(origin[i], root) && Backward(origin[i]) && AllRefuse(worlds, i) ==> Backward(attempts[i]))
  }

  lemma StartsDirected(root: nat, origin: seq<Attempt>, worlds: seq<World>)
    ensures Directed(root, origin, origin, worlds)
  {
  }

  lemma StepKeepsDirection(me: ReplicaId, root: nat, s: IndexState, a: Attempt, t: IndexState, b: Attempt, fate: Fate)
    requires Stepped(me, root, s, a, t, b) && Mine(a, root)
    requires Open(Tidy(a, root), root) ==> b == a || b.progress == NextProgress(me, s, Tidy(a, root), fate)
    ensures Onward(a) && fate.decision != Some(Refuse) && !fate.resumed.Drifted? && fate.resumed != Interrupted(Aborted) ==> Onward(b)
    ensures Backward(a) && fate.decision != Some(Adopt) ==> Backward(b)
  {
    assert fate.decision.Some? ==> fate.decision.value == Adopt || fate.decision.value == Refuse;
  }

  lemma PassKeepsDirection(me: ReplicaId, root: nat, first: IndexState, origin: seq<Attempt>, s: IndexState,
                           before: seq<Attempt>, trace: seq<IndexState>, now: seq<Attempt>, worlds: seq<World>, k: nat)
    requires Standing(root, first, origin, s, before) && Passed(me, root, s, before, trace, now) && k < |worlds|
    requires Followed(me, root, before, trace, now, worlds[k].fates) && Directed(root, origin, before, worlds)
    ensures Directed(root, origin, now, worlds)
  {
    hide Stepped, NextProgress, Onward, Backward;
    forall i | 0 <= i < |origin| && Mine(origin[i], root)
      ensures Onward(origin[i]) && AllAdopt(worlds, i) ==> Onward(now[i])
      ensures Backward(origin[i]) && AllRefuse(worlds, i) ==> Backward(now[i])
    {
      assert EntryStands(root, first, origin[i], s, before[i]);
      assert Mine(before[i], root);
      assert Stepped(me, root, trace[i], before[i], trace[i + 1], now[i]);
      StepKeepsDirection(me, root, trace[i], before[i], trace[i + 1], now[i], worlds[k].fates(i));
    }
  }

  lemma DirectedEnd(root: nat, first: IndexState, origin: seq<Attempt>, s: IndexState, attempts: seq<Attempt>, worlds: seq<World>)
    requires Standing(root, first, origin, s, attempts) && Quiet(attempts, root) && Directed(root, origin, attempts, worlds)
    ensures |attempts| == |origin|
    ensures forall i :: 0 <= i < |origin| && Mine(origin[i], root) && Onward(origin[i]) && AllAdopt(worlds, i) ==>
              attempts[i].progress == Committed
    ensures forall i :: 0 <= i < |origin| && Mine(origin[i], root) && Backward(origin[i]) && AllRefuse(worlds, i) ==>
              attempts[i].progress == RolledBack
  {
    forall i | 0 <= i < |origin| && Mine(origin[i], root)
      ensures Onward(origin[i]) && AllAdopt(worlds, i) ==> attempts[i].progress == Committed
      ensures Backward(origin[i]) && AllRefuse(worlds, i) ==> attempts[i].progress == RolledBack
    {
      assert EntryStands(root, first, origin[i], s, attempts[i]);
      assert Tidy(attempts[i], root) == attempts[i] && !Open(attempts[i], root);
    }
  }

  // ---------------------------------------------------------------- after a crash

  /** The index is as before the application, or has adopted its record. */
  ghost predicate Resting(start: IndexState, record: SyncRecord, s: IndexState) {
    s == start || AdoptOutcome(start, record, s)
  }

  lemma CrashEntries(me: ReplicaId, root: nat, record: SyncRecord, start: IndexState, before: seq<Attempt>,
                     s: IndexState, attempts: seq<Attempt>, bound: bool, p: Progress)
    requires CrashPoint(me, root, record, start, before, s, attempts, bound, p) && Quiet(before, root)
    ensures |attempts| == |before| + 1 && Resting(start, record, s)
    ensures forall i :: 0 <= i < |before| ==> attempts[i] == before[i] && !Open(Tidy(attempts[i], root), root)
    ensures Open(Tidy(attempts[|before|], root), root) <==> bound && p in {Prepared, Preserved, Materialized}
    ensures bound ==> attempts[|before|].causal == Some(Binding(record, Current(start.records, record.path)))
  {
    assert forall i :: 0 <= i < |before| ==> attempts[i] == before[i];
  }

  lemma CrashStands(me: ReplicaId, root: nat, record: SyncRecord, start: IndexState, before: seq<Attempt>,
                    s: IndexState, attempts: seq<Attempt>, bound: bool, p: Progress)
    requires CrashPoint(me, root, record, start, before, s, attempts, bound, p) && Quiet(before, root)
    ensures Standing(root, s, attempts, s, attempts) && Resting(start, record, s) && |attempts| == |before| + 1
  {
    CrashEntries(me, root, record, start, before, s, attempts, bound, p);
    forall i | 0 <= i < |attempts| ensures EntryStands(root, s, attempts[i], s, attempts[i]) {
      if i < |before| { assert !Open(Tidy(attempts[i], root), root); }
    }
  }

  lemma SticksIsStuck(me: ReplicaId, root: nat, record: SyncRecord, start: IndexState, before: seq<Attempt>,
                      s: IndexState, attempts: seq<Attempt>, bound: bool, p: Progress)
    requires CrashPoint(me, root, record, start, before, s, attempts, bound, p) && |attempts| == |before| + 1
    ensures Sticks(start, record, bound, p) <==> Open(attempts[|before|], root) && Stuck(s, attempts[|before|])
  {
  }

  /** The change that was being applied, as it stands after some runs. */
  lemma LastStands(me: ReplicaId, root: nat, record: SyncRecord, start: IndexState, before: seq<Attempt>,
                   middle: IndexState, crashed: seq<Attempt>, bound: bool, p: Progress, s: IndexState, was: seq<Attempt>)
    requires CrashPoint(me, root, record, start, before, middle, crashed, bound, p) && Quiet(before, root)
    requires Standing(root, middle, crashed, s, was)
    ensures |was| == |before| + 1 && forall i :: 0 <= i < |before| ==> !Open(Tidy(was[i], root), root)
    ensures EntryStands(root, middle, crashed[|before|], s, was[|before|])
    ensures Open(Tidy(was[|before|], root), root) ==>
              bound && was[|before|].causal == Some(Binding(record, Current(start.records, record.path)))
              && Open(Tidy(crashed[|before|], root), root) && Tidy(was[|before|], root) == was[|before|]
  {
    CrashEntries(me, root, record, start, before, middle, crashed, bound, p);
    forall i | 0 <= i < |before| ensures !Open(Tidy(was[i], root), root) {
      assert EntryStands(root, middle, crashed[i], s, was[i]);
    }
  }

  lemma {:induction false} OthersRest(me: ReplicaId, root: nat, s: IndexState, was: seq<Attempt>, trace: seq<IndexState>, now: seq<Attempt>, n: nat)
    requires Passed(me, root, s, was, trace, now) && n <= |was|
    requires forall i :: 0 <= i < n ==> !Open(Tidy(was[i], root), root)
    ensures trace[n] == s
  {
    if n > 0 {
      OthersRest(me, root, s, was, trace, now, n - 1);
      assert Stepped(me, root, trace[n - 1], was[n - 1], trace[n], now[n - 1]);
    }
  }

  /** A run adopts the record at most once. */
  lemma PassRests(me: ReplicaId, root: nat, record: SyncRecord, start: IndexState, before: seq<Attempt>,
                  middle: IndexState, crashed: seq<Attempt>, bound: bool, p: Progress,
                  s: IndexState, was: seq<Attempt>, trace: seq<IndexState>, now: seq<Attempt>)
    requires CrashPoint(me, root, record, start, before, middle, crashed, bound, p) && Quiet(before, root)
    requires Standing(root, middle, crashed, s, was) && Passed(me, root, s, was, trace, now) && Resting(start, record, s)
    ensures |was| == |before| + 1 && Resting(start, record, trace[|was|])
  {
    hide CrashPoint, Quiet, Standing;
    var n := |before|;
    LastStands(me, root, record, start, before, middle, crashed, bound, p, s, was);
    OthersRest(me, root, s, was, trace, now, n);
    assert Stepped(me, root, trace[n], was[n], trace[n + 1], now[n]);
  }

  /** A run that nothing outside hinders settles the change, unless it is stuck. */
  lemma UnhinderedSettles(me: ReplicaId, root: nat, record: SyncRecord, start: IndexState, before: seq<Attempt>,
                          middle: IndexState, crashed: seq<Attempt>, bound: bool, p: Progress,
                          s: IndexState, was: seq<Attempt>, trace: seq<IndexState>, now: seq<Attempt>, w: World)
    requires CrashPoint(me, root, record, start, before, middle, crashed, bound, p) && Quiet(before, root)
    requires Standing(root, middle, crashed, s, was) && Passed(me, root, s, was, trace, now) && Resting(start, record, s)
    ensures !Sticks(start, record, bound, p) && Unhindered(start, record, w, |before|) ==>
              w.reach >= |was| && AllSettle(me, root, was, trace, w.fates)
  {
    hide Standing;
    var n := |before|;
    LastStands(me, root, record, start, before, middle, crashed, bound, p, s, was);
    OthersRest(me, root, s, was, trace, now, n);
    if !Sticks(start, record, bound, p) && Unhindered(start, record, w, n) && Open(Tidy(was[n], root), root) {
      SticksIsStuck(me, root, record, start, before, middle, crashed, bound, p);
      LastSettles(me, root, record, start, middle, crashed[n], s, was[n], w.fates(n));
    }
  }

  lemma LastSettles(me: ReplicaId, root: nat, record: SyncRecord, start: IndexState, first: IndexState, o: Attempt,
                    s: IndexState, a: Attempt, fate: Fate)
    requires EntryStands(root, first, o, s, a) && Open(Tidy(o, root), root) && !Stuck(first, o) && Resting(start, record, s)
    requires Open(a, root) && !a.progress.Indexed? && a.causal == Some(Binding(record, Current(start.records, record.path)))
    requires Applicable(me, start, record) && Favourable(start, record, fate)
    ensures Settles(me, s, a, fate)
  {
  }

  lemma CrashDirected(me: ReplicaId, root: nat, record: SyncRecord, start: IndexState, before: seq<Attempt>,
                      middle: IndexState, crashed: seq<Attempt>, bound: bool, p: Progress,
                      t: IndexState, now: seq<Attempt>, worlds: seq<World>)
    requires CrashPoint(me, root, record, start, before, middle, crashed, bound, p)
    requires Standing(root, middle, crashed, t, now) && Quiet(now, root) && Directed(root, crashed, now, worlds)
    ensures |now| == |before| + 1
    ensures bound && AllAdopt(worlds, |before|) ==> now[|before|].progress == Committed
    ensures bound && p in {Prepared, Preserved} && AllRefuse(worlds, |before|) ==> now[|before|].progress == RolledBack
  {
    hide Standing, Quiet, Directed, AllAdopt, AllRefuse;
    DirectedEnd(root, middle, crashed, t, now, worlds);
  }

  lemma CrashConcludes(me: ReplicaId, root: nat, record: SyncRecord, start: IndexState, before: seq<Attempt>,
                       middle: IndexState, crashed: seq<Attempt>, bound: bool, p: Progress, t: IndexState, now: seq<Attempt>)
    requires CrashPoint(me, root, record, start, before, middle, crashed, bound, p) && Quiet(before, root)
    requires Standing(root, middle, crashed, t, now)
    ensures |now| == |before| + 1
    ensures Quiet(now, root) && Concluded(root, middle, crashed, t, now) ==>
              && Current(t.records, record.path) ==
                 (if now[|before|].progress.Committed? then Some(record) else Current(start.records, record.path))
              && forall q :: q != record.path ==> Current(t.records, q) == Current(start.records, q)
  {
    hide Standing;
    var n := |before|;
    LastStands(me, root, record, start, before, middle, crashed, bound, p, t, now);
    CrashEntries(me, root, record, start, before, middle, crashed, bound, p);
    if Quiet(now, root) && Concluded(root, middle, crashed, t, now) {
      forall q | q != record.path ensures Current(t.records, q) == Current(start.records, q) {
        assert forall i :: 0 <= i < |crashed| ==> !Concerns(Tidy(crashed[i], root), root, q);
      }
      if !Open(Tidy(crashed[n], root), root) {
        assert forall i :: 0 <= i < |crashed| ==> !Concerns(Tidy(crashed[i], root), root, record.path);
        assert Tidy(now[n], root) == now[n];
      }
    }
  }
}
