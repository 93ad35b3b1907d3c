/** A rename target takes over the clock of the path it came from. This module says exactly when
    that lets a peer overwrite edits nobody else has seen, and exhibits a run in which it does. */
module RenameLoss {
  import opened Core
  import opened Index
  import opened Causal
  import ScanLaws

  /** Apart from `me`, `w` knows everything `v` knows. */
  ghost predicate KnownApart(me: ReplicaId, v: VersionVector, w: VersionVector) {
    forall x :: x != me ==> Get(v, x) <= Get(w, x)
  }

  /** What the new version of a rename target looks like. */
  lemma RenamedVersion(s: System, me: ReplicaId, obs: Observation, m: Renames, plan: seq<WirePath>, s': System, t: WirePath)
    requires Inv(s) && Next(s, ScanLocal(me, obs, m, plan), s') && t in m.source
    ensures var sources := ScanSources(s.nodes[me].index, obs, m, plan);
            LocalChange(s, me, sources, s') && t in sources && sources[t] == m.source[t] != t
    ensures m.source[t] in s.nodes[me].index.records
  {
    hide Inv, ScanOutcome, Follows, Writes, Touched;
    OwnCoherent(s, me);
    ScanWrites(me, s.nodes[me].index, obs, m, plan, s'.nodes[me].index);
    ScanLaws.SourceIsKept(me, s.nodes[me].index, obs, m, plan, s'.nodes[me].index, t);
    ScanLaws.TouchedExactly(me, s.nodes[me].index, obs, m, plan, s'.nodes[me].index, t);
  }

  /** The clock and history of the new version. */
  lemma RenamedClock(s: System, me: ReplicaId, sources: map<WirePath, WirePath>, s': System, t: WirePath)
    requires Inv(s) && LocalChange(s, me, sources, s') && t in sources
    ensures t in s'.nodes[me].index.records && t in s'.nodes[me].history
    ensures var renamed, base := HeldAt(s'.nodes[me], t), VersionAt(s.nodes[me].index.records, sources[t]);
            && renamed.record.path == t && renamed in s'.sent
            && s.nodes[me].index.counter < Get(renamed.record.version, me)
            && (forall x :: x != me ==> Get(renamed.record.version, x) == Get(base, x))
            && renamed.history == s.nodes[me].HistoryAt(sources[t]) + {EventAt(me, s'.nodes[me], t)}
  {
    hide HasAuthor, LogFits, Ordered, Faithful, Shared, Coherent;
    NewVersion(s, me, sources, s', t, me);
  }

  /** An event on `t` is not behind any version of `f`, when neither is a rename target. */
  lemma ForeignEvent(s: System, me: ReplicaId, a: Authoring, f: WirePath)
    requires Inv(s) && me in s.nodes && a in s.log && a.held.record.path != f
    requires a.held.record.path !in s.targets && f !in s.targets
    ensures a.event !in s.nodes[me].HistoryAt(f)
    ensures a.event.replica == me ==> a.event.counter <= s.nodes[me].index.counter
  {
    hide Known, HasAuthor, Ordered;
    forall b | b in s.log && b.held.record.path == f ensures b.event != a.event {}
    if f in s.nodes[me].index.records {
      var h := HeldAt(s.nodes[me], f);
      assert h in s.sent && h.record.path == f;
      assert a.event !in EventsOn(s.log, f);
    }
  }

  lemma SentGrows(s: System, step: Step, s': System)
    requires Next(s, step, s')
    ensures s.sent <= s'.sent
  {
    hide ScanOutcome, PushOutcome, AdoptOutcome, Applicable, ScanSources;
  }

  lemma {:induction false} SentStays(states: seq<System>, steps: seq<Step>, i: nat, j: nat, h: Held)
    requires IsRun(states, steps) && i <= j < |states| && h in states[i].sent
    ensures h in states[j].sent
    decreases j
  {
    hide Next, Init;
    if i < j {
      SentStays(states, steps, i, j - 1, h);
      SentGrows(states[j - 1], steps[j - 1], states[j]);
    }
  }

  /** In every run, a rename onto `t` is followed by any other steps. A peer that then holds a version
      of `t` from before the rename, its own or one it adopted meanwhile, takes the renamed file over
      it if and only if the source's clock covers that version's clock, apart from the renaming
      replica. If no rename had landed on either path before, the version it gives up holds an event
      that the renamed file does not contain. */
  lemma RenameOverwritesExactly(states: seq<System>, steps: seq<Step>, i: nat, j: nat, t: WirePath, r: ReplicaId)
    requires IsRun(states, steps) && i < j < |states| && steps[i].ScanLocal? && t in steps[i].m.source
    requires r in states[j].nodes && t in states[j].nodes[r].index.records && t in states[j].nodes[r].history
    requires HeldAt(states[j].nodes[r], t) in states[i].sent
    ensures var me := steps[i].replica;
            && me in states[i].nodes && me in states[i + 1].nodes
            && t in states[i + 1].nodes[me].index.records && t in states[i + 1].nodes[me].history
    ensures var me, f := steps[i].replica, steps[i].m.source[t];
            var renamed, h := HeldAt(states[i + 1].nodes[me], t), HeldAt(states[j].nodes[r], t);
            && renamed.record.path == t && renamed in states[j].sent
            && (Applicable(r, states[j].nodes[r].index, renamed.record) <==>
                  KnownApart(me, h.record.version, VersionAt(states[i].nodes[me].index.records, f)))
            && (t !in states[i].targets && f !in states[i].targets ==> !(h.history <= renamed.history))
  {
    hide Inv, Next, Init, Follows, Writes, ScanOutcome;
    var s, s', u := states[i], states[i + 1], states[j];
    var step := steps[i];
    var me, f := step.replica, step.m.source[t];
    RunsKeepInv(states, steps);
    assert Next(s, step, s');
    RenamedVersion(s, me, step.obs, step.m, step.plan, s', t);
    var sources := ScanSources(s.nodes[me].index, step.obs, step.m, step.plan);
    RenamedClock(s, me, sources, s', t);
    var renamed, h := HeldAt(s'.nodes[me], t), HeldAt(u.nodes[r], t);
    SentStays(states, steps, i + 1, j, renamed);
    AcceptsExactly(u, r, renamed);
    OwnVersions(u, r, renamed);
    OwnVersions(s, me, h);
    if t !in s.targets && f !in s.targets {
      var a := AuthorOf(s, h);
      AuthorsDiffer(s, me, sources, s', t, a);
    }
  }

  /** Someone authored a version in circulation, and it holds that event. */
  lemma AuthorOf(s: System, h: Held) returns (a: Authoring)
    requires Inv(s) && h in s.sent && h.record.path !in s.targets
    ensures a in s.log && a.held == h && a.event in h.history
  {
    hide Known, Ordered, Shared;
    a :| a in s.log && a.held == h;
  }

  lemma AuthorsDiffer(s: System, me: ReplicaId, sources: map<WirePath, WirePath>, s': System, t: WirePath, a: Authoring)
    requires Inv(s) && LocalChange(s, me, sources, s') && t in sources && sources[t] != t
    requires t !in s.targets && sources[t] !in s.targets && a in s.log && a.held.record.path == t
    ensures t in s'.nodes[me].index.records && t in s'.nodes[me].history
    ensures a.event !in HeldAt(s'.nodes[me], t).history
  {
    hide Inv, Follows, Writes;
    RenamedClock(s, me, sources, s', t);
    ForeignEvent(s, me, a, sources[t]);
  }

  // ---------------------------------------------------------------- a run that loses an edit

  /** The state after `me` commits `post`, with the history variables in step. */
  ghost function Commit(s: System, me: ReplicaId, sources: map<WirePath, WirePath>, post: IndexState): System
    requires me in s.nodes && sources.Keys <= post.records.Keys
  {
    var n := Node(post, map p | p in post.records ::
        if p in sources
        then s.nodes[me].HistoryAt(sources[p]) + {Event(me, Get(post.records[p].version, me))}
        else s.nodes[me].HistoryAt(p));
    System(s.nodes[me := n],
           s.sent + (set p | p in sources :: HeldAt(n, p)),
           s.log + (set p | p in sources :: Authoring(s.clock, EventAt(me, n, p), HeldAt(n, p))),
           s.targets + (set p | p in sources && sources[p] != p),
           s.clock + 1)
  }

  lemma CommitFollows(s: System, me: ReplicaId, sources: map<WirePath, WirePath>, post: IndexState)
    requires me in s.nodes && sources.Keys <= post.records.Keys
    ensures Follows(s, me, sources, Commit(s, me, sources, post))
  {
  }

  const A: ReplicaId := 0
  const B: ReplicaId := 1
  const P := WirePath(["p"])
  const Q := WirePath(["q"])

  /** The contents `B` pushes to the two paths, and the first of them as `A` finds it on its disk. */
  const DRAFT := Entry(File, None, 1, None, false, Some(1))
  const TEXT := Entry(File, None, 2, None, false, Some(2))
  const COPY := Entry(File, Some(Identity(1, 7)), 2, None, false, Some(2))

  const SEEN := Observation(map[Q := COPY], {}, {}, false)
  const MOVE := Renames(map[Q := P], map[P := Q])

  ghost function Start(): System {
    System(map[A := Node(IndexState(map[], 0, 0), map[]), B := Node(IndexState(map[], 0, 0), map[])], {}, {}, {}, 0)
  }

  /** `B` writes `q`, then `p`. */
  const INDEX_B1 := IndexState(map[Q := DRAFT.ToRecord(Q, map[B := 1], 1)], 1, 1)
  const INDEX_B2 := IndexState(map[Q := DRAFT.ToRecord(Q, map[B := 1], 1), P := TEXT.ToRecord(P, map[B := 2], 2)], 2, 2)

  /** `A` adopts `p` alone, then renames it to `q`. */
  const INDEX_A1 := IndexState(map[P := COPY.ToRecord(P, map[B := 2], 1)], 0, 1)
  const INDEX_A2 := IndexState(map[P := COPY.ToRecord(P, map[B := 2, A := 1], 2).(tombstone := true),
                                  Q := COPY.ToRecord(Q, map[B := 2, A := 1], 2)], 1, 2)

  /** The scan of `A` correlates the two paths as a rename. */
  lemma MoveIsFound()
    ensures IsRenameMap(INDEX_A1.records, SEEN, MOVE.source) && RenamesFit(INDEX_A1.records, SEEN, MOVE)
  {
    var prev := INDEX_A1.records;
    assert OldKeys(prev, SEEN) == map[P := (File, Identity(1, 7))];
    assert NewKeys(prev, SEEN) == map[Q := (File, Identity(1, 7))];
    assert RenamePair(prev, SEEN, P, Q);
  }

  lemma MoveOutcome()
    ensures ScanOutcome(A, INDEX_A1, SEEN, MOVE, [Q], INDEX_A2)
    ensures ScanSources(INDEX_A1, SEEN, MOVE, [Q]) == map[Q := P, P := P]
  {
    hide IsRenameMap, RenamesFit;
    MoveIsFound();
    assert [Q][0] == Q;
    assert IsPlan(INDEX_A1.records, SEEN, MOVE, [Q]);
    assert Exhausted(INDEX_A1.records, SEEN, MOVE, [Q]);
    assert Observe(map[B := 2], A, 1) == map[B := 2, A := 1];
    assert Carried(A, INDEX_A1.records, SEEN, MOVE, 0, 2, [Q], INDEX_A2.records);
  }

  ghost function AfterDraft(): System {
    Commit(Start(), B, map[Q := Q], INDEX_B1)
  }

  ghost function AfterText(): (s: System)
    ensures A in s.nodes && B in s.nodes && P in s.nodes[B].index.records && P in s.nodes[B].history
  {
    Commit(AfterDraft(), B, map[P := P], INDEX_B2)
  }

  ghost function TextMessage(): Held {
    HeldAt(AfterText().nodes[B], P)
  }

  ghost function AfterAdoption(): (s: System)
    ensures A in s.nodes && B in s.nodes
  {
    var s := AfterText();
    s.(nodes := s.nodes[A := Node(INDEX_A1, s.nodes[A].history[P := TextMessage().history])])
  }

  ghost function AfterMove(): System {
    Commit(AfterAdoption(), A, map[Q := P, P := P], INDEX_A2)
  }

  lemma PushesHappen()
    ensures Next(Start(), PushLocal(B, Q, DRAFT), AfterDraft())
    ensures Next(AfterDraft(), PushLocal(B, P, TEXT), AfterText())
  {
    hide Follows;
    CommitFollows(Start(), B, map[Q := Q], INDEX_B1);
    CommitFollows(AfterDraft(), B, map[P := P], INDEX_B2);
    assert PushOutcome(B, IndexState(map[], 0, 0), Q, DRAFT, INDEX_B1);
    assert PushOutcome(B, INDEX_B1, P, TEXT, INDEX_B2);
  }

  lemma AdoptionHappens()
    ensures Next(AfterText(), AdoptFrom(A, TextMessage()), AfterAdoption())
  {
    assert TextMessage().record == INDEX_B2.records[P].ToSync();
    assert AdoptOutcome(IndexState(map[], 0, 0), TextMessage().record, INDEX_A1);
  }

  lemma MoveHappens()
    ensures Next(AfterAdoption(), ScanLocal(A, SEEN, MOVE, [Q]), AfterMove())
  {
    hide Follows, ScanOutcome, ScanSources;
    MoveOutcome();
    CommitFollows(AfterAdoption(), A, map[Q := P, P := P], INDEX_A2);
  }

  ghost function MoveMessage(): (h: Held)
    ensures h.record == INDEX_A2.records[Q].ToSync() && h.history == {Event(B, 2), Event(A, 1)}
    ensures h in AfterMove().sent
  {
    HeldAt(AfterMove().nodes[A], Q)
  }

  /** What `B` still holds. */
  lemma EditIsHeld()
    ensures B in AfterMove().nodes && AfterMove().nodes[B].index == INDEX_B2
    ensures Q in AfterMove().nodes[B].history && Event(B, 1) in AfterMove().nodes[B].history[Q]
  {
  }

  lemma MoveIsAccepted()
    ensures Applicable(B, INDEX_B2, INDEX_A2.records[Q].ToSync())
  {
    var v, w: VersionVector := map[B := 1], map[B := 2, A := 1];
    assert Get(w, A) > Get(v, A);
    assert AtMost(v, w) && Relation(v, w) == Before;
  }

  /** `B` edits `q`; nobody receives that edit. `A` receives only `p`, renames it to `q`, and sends
      the result: `B` accepts it over its own edit. */
  lemma RenameLosesAnEdit() returns (states: seq<System>, steps: seq<Step>, s: System, message: Held)
    ensures Reached(states, steps, s) && B in s.nodes && message in s.sent
    ensures message.record.path == Q && Q in s.nodes[B].index.records && Q in s.nodes[B].history
    ensures Applicable(B, s.nodes[B].index, message.record)
    ensures !(s.nodes[B].history[Q] <= message.history)
  {
    hide Next, Applicable, AfterDraft, AfterText, AfterAdoption, AfterMove, MoveMessage, TextMessage;
    PushesHappen();
    AdoptionHappens();
    MoveHappens();
    EditIsHeld();
    MoveIsAccepted();
    s, message := AfterMove(), MoveMessage();
    states := [Start(), AfterDraft(), AfterText(), AfterAdoption(), s];
    steps := [PushLocal(B, Q, DRAFT), PushLocal(B, P, TEXT), AdoptFrom(A, TextMessage()), ScanLocal(A, SEEN, MOVE, [Q])];
  }
}
