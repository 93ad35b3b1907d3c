/** Replicas that scan, take direct pushes, and adopt each other's records under the causal check.
    The system state carries history variables: which authoring events stand behind each stored
    version. A version, once stored anywhere, may be delivered to anyone at any later time. */
module Causal {
  import opened Core
  import opened Index
  import ScanLaws

  /** One local change, named by the replica that made it and the counter value it spent. */
  datatype Event = Event(replica: ReplicaId, counter: nat)

  /** A stored version of a path, with the events it was built on. */
  datatype Held = Held(record: SyncRecord, history: set<Event>)

  datatype Node = Node(index: IndexState, history: map<WirePath, set<Event>>)
  {
    ghost function HistoryAt(p: WirePath): set<Event> {
      if p in history then history[p] else {}
    }
  }

  ghost function HeldAt(n: Node, p: WirePath): Held
    requires p in n.index.records && p in n.history
  {
    Held(n.index.records[p].ToSync(), n.history[p])
  }

  /** An entry of the log: when, by which event, and the version it produced. */
  datatype Authoring = Authoring(step: nat, event: Event, held: Held)

  datatype System = System(
    nodes: map<ReplicaId, Node>,
    sent: set<Held>,
    log: set<Authoring>,
    targets: set<WirePath>,
    clock: nat)

  // ---------------------------------------------------------------- steps

  datatype Step =
    | ScanLocal(replica: ReplicaId, obs: Observation, m: Renames, plan: seq<WirePath>)
    | PushLocal(replica: ReplicaId, path: WirePath, entry: Entry)
    | AdoptFrom(replica: ReplicaId, message: Held)

  /** The clock each written path continues. */
  function ScanSources(pre: IndexState, obs: Observation, m: Renames, plan: seq<WirePath>): map<WirePath, WirePath> {
    map p | p in pre.records.Keys + obs.current.Keys && Touched(m, plan, p) :: m.Source(p)
  }

  ghost function EventAt(me: ReplicaId, n: Node, p: WirePath): Event
    requires p in n.index.records
  {
    Event(me, Get(n.index.records[p].version, me))
  }

  /** How the history variables follow a local change that wrote the paths of `sources`. */
  ghost predicate Follows(s: System, me: ReplicaId, sources: map<WirePath, WirePath>, s': System)
    requires me in s.nodes && me in s'.nodes
  {
    var pre, post := s.nodes[me], s'.nodes[me];
    && s'.nodes == s.nodes[me := post]
    && post.history.Keys == post.index.records.Keys
    && sources.Keys <= post.index.records.Keys
    && (forall p :: p in sources ==> post.history[p] == pre.HistoryAt(sources[p]) + {EventAt(me, post, p)})
    && (forall p :: p in post.history && p !in sources ==> post.history[p] == pre.HistoryAt(p))
    && s'.sent == s.sent + (set p | p in sources :: HeldAt(post, p))
    && s'.log == s.log + (set p | p in sources :: Authoring(s.clock, EventAt(me, post, p), HeldAt(post, p)))
    && s'.targets == s.targets + (set p | p in sources && sources[p] != p)
    && s'.clock == s.clock + 1
  }

  ghost predicate Next(s: System, step: Step, s': System) {
    && step.replica in s.nodes && step.replica in s'.nodes
    && var me := step.replica;
       var pre, post := s.nodes[me], s'.nodes[me];
       match step
       case ScanLocal(_, obs, m, plan) =>
         && ScanOutcome(me, pre.index, obs, m, plan, post.index)
         && post.index.counter <= U64_MAX && post.index.generation <= U64_MAX
         && Follows(s, me, ScanSources(pre.index, obs, m, plan), s')
       case PushLocal(_, path, entry) =>
         && PushOutcome(me, pre.index, path, entry, post.index)
         && post.index.counter <= U64_MAX && post.index.generation <= U64_MAX
         && Follows(s, me, map[path := path], s')
       case AdoptFrom(_, message) =>
         && message in s.sent
         && Applicable(me, pre.index, message.record)
         && AdoptOutcome(pre.index, message.record, post.index)
         && post.index.generation <= U64_MAX
         && s' == s.(nodes := s.nodes[me := Node(post.index, pre.history[message.record.path := message.history])])
  }

  ghost predicate Init(s: System) {
    && (forall r :: r in s.nodes ==> s.nodes[r] == Node(IndexState(map[], 0, 0), map[]))
    && s.sent == {} && s.log == {} && s.targets == {}
  }

  ghost predicate IsRun(states: seq<System>, steps: seq<Step>) {
    && |states| == |steps| + 1
    && Init(states[0])
    && forall i :: 0 <= i < |steps| ==> Next(states[i], steps[i], states[i + 1])
  }

  // ---------------------------------------------------------------- what every step keeps

  /** Rows are coherent, and every row is a version in circulation. */
  ghost predicate Stored(s: System) {
    && (forall r :: r in s.nodes ==> Coherent(r, s.nodes[r].index) && s.nodes[r].history.Keys == s.nodes[r].index.records.Keys)
    && (forall r, p :: r in s.nodes && p in s.nodes[r].index.records ==> HeldAt(s.nodes[r], p) in s.sent)
  }

  /** No version anywhere knows more of a replica than the replica's own durable counter. */
  ghost predicate Known(s: System) {
    forall h, r :: h in s.sent && r in s.nodes ==> Get(h.record.version, r) <= s.nodes[r].index.counter
  }

  /** Every version in circulation was authored. */
  ghost predicate HasAuthor(s: System) {
    forall h :: h in s.sent ==> exists a :: a in s.log && a.held == h
  }

  /** The author of a version still holds that path, and knows its own event. */
  ghost predicate LogFits(s: System) {
    forall a :: a in s.log ==>
      && a.held in s.sent
      && a.step < s.clock
      && a.event.counter > 0
      && a.event.replica in s.nodes
      && Get(a.held.record.version, a.event.replica) == a.event.counter
      && a.held.record.path in s.nodes[a.event.replica].index.records
      && a.event.counter <= Get(s.nodes[a.event.replica].index.records[a.held.record.path].version, a.event.replica)
  }

  /** `b` happened later and elsewhere, so `a` cannot have known it. */
  ghost predicate InOrder(a: Authoring, b: Authoring) {
    && (a.step == b.step ==> a.event.replica == b.event.replica)
    && (a.step < b.step && a.event.replica == b.event.replica ==> a.event.counter < b.event.counter)
    && (a.step < b.step && a.event.replica != b.event.replica ==>
          Get(a.held.record.version, b.event.replica) < b.event.counter)
    && (a.event == b.event && a.held.record.path == b.held.record.path ==> a == b)
  }

  ghost predicate Ordered(s: System) {
    forall a, b :: a in s.log && b in s.log ==> InOrder(a, b)
  }

  /** The events authored on a path. */
  ghost function EventsOn(log: set<Authoring>, p: WirePath): set<Event> {
    set a | a in log && a.held.record.path == p :: a.event
  }

  /** For a path no rename ever landed on, the clock is the history: a version contains exactly
      the events on its path that its clock covers, and every non-zero entry is such an event. */
  ghost predicate Faithful(s: System) {
    forall h :: h in s.sent && h.record.path !in s.targets ==> ClockIsHistory(s.log, h)
  }

  ghost predicate ClockIsHistory(log: set<Authoring>, h: Held) {
    && (forall e :: e in h.history <==> e in EventsOn(log, h.record.path) && e.counter <= Get(h.record.version, e.replica))
    && (forall x :: Get(h.record.version, x) > 0 ==> Event(x, Get(h.record.version, x)) in h.history)
  }

  /** One event writes two paths only as a rename. */
  ghost predicate Shared(s: System) {
    forall a, b :: a in s.log && b in s.log && a.event == b.event && a.held.record.path != b.held.record.path ==>
      a.held.record.path in s.targets || b.held.record.path in s.targets
  }

  ghost predicate Inv(s: System) {
    Stored(s) && Known(s) && HasAuthor(s) && LogFits(s) && Ordered(s) && Faithful(s) && Shared(s)
  }

  // ---------------------------------------------------------------- local changes

  /** What a scan and a direct push have in common. */
  ghost predicate Writes(me: ReplicaId, pre: IndexState, sources: map<WirePath, WirePath>, post: IndexState) {
    && Coherent(me, post)
    && pre.counter <= post.counter
    && post.records.Keys == pre.records.Keys + sources.Keys
    && (forall p :: p in pre.records && p !in sources ==> post.records[p] == pre.records[p])
    && (forall p :: p in sources ==>
          && pre.counter < Get(post.records[p].version, me)
          && forall x :: x != me ==> Get(post.records[p].version, x) == Get(VersionAt(pre.records, sources[p]), x))
    && (forall p, q :: p in sources && q in sources && p != q && Get(post.records[p].version, me) == Get(post.records[q].version, me) ==>
          sources[p] == q || sources[q] == p)
  }

  lemma ScanWrites(me: ReplicaId, pre: IndexState, obs: Observation, m: Renames, plan: seq<WirePath>, post: IndexState)
    requires Coherent(me, pre) && ScanOutcome(me, pre, obs, m, plan, post)
    requires post.counter <= U64_MAX && post.generation <= U64_MAX
    ensures Writes(me, pre, ScanSources(pre, obs, m, plan), post)
  {
    hide ScanOutcome, Coherent, Touched, Authored;
    ScanKeepsCoherent(me, pre, obs, m, plan, post);
    var sources := ScanSources(pre, obs, m, plan);
    forall p ensures p in post.records <==> p in pre.records || p in sources {
      ScanLaws.ScanIsExact(me, pre, obs, m, plan, post, p);
      ScanLaws.TouchedExactly(me, pre, obs, m, plan, post, p);
    }
    forall p | p in post.records
      ensures p !in sources ==> p in pre.records && post.records[p] == pre.records[p]
      ensures p in sources ==>
                && pre.counter < Get(post.records[p].version, me)
                && forall x :: x != me ==> Get(post.records[p].version, x) == Get(VersionAt(pre.records, sources[p]), x)
    {
      var c := ScanLaws.ScannedRow(me, pre, obs, m, plan, post, p);
      if p in sources {
        AuthoredFacts(me, pre, obs, post.generation, p, m.Source(p), c);
      }
    }
    forall p, q | p in sources && q in sources && p != q && Get(post.records[p].version, me) == Get(post.records[q].version, me)
      ensures sources[p] == q || sources[q] == p
    {
      SharedStamp(me, pre, obs, m, plan, post, p, q);
    }
  }

  /** Two paths written under one counter value are the ends of a rename. */
  lemma SharedStamp(me: ReplicaId, pre: IndexState, obs: Observation, m: Renames, plan: seq<WirePath>, post: IndexState, p: WirePath, q: WirePath)
    requires Coherent(me, pre) && ScanOutcome(me, pre, obs, m, plan, post)
    requires p in post.records && q in post.records && Touched(m, plan, p) && Touched(m, plan, q) && p != q
    requires Get(post.records[p].version, me) == Get(post.records[q].version, me)
    ensures m.Source(p) == q || m.Source(q) == p
  {
    hide ScanOutcome, Coherent, Touched, Authored;
    var c := ScanLaws.ScannedRow(me, pre, obs, m, plan, post, p);
    var d := ScanLaws.ScannedRow(me, pre, obs, m, plan, post, q);
    AuthoredFacts(me, pre, obs, post.generation, p, m.Source(p), c);
    AuthoredFacts(me, pre, obs, post.generation, q, m.Source(q), d);
    ScanInverts(me, pre, obs, m, plan, post);
  }

  lemma ScanInverts(me: ReplicaId, pre: IndexState, obs: Observation, m: Renames, plan: seq<WirePath>, post: IndexState)
    requires ScanOutcome(me, pre, obs, m, plan, post)
    ensures forall f :: f in m.target ==> m.target[f] in m.source && m.source[m.target[f]] == f
  {
    hide Carried, IsPlan, RenamesFit, IsRenameMap, Exhausted;
    RenamesInvert(pre.records, obs, m);
  }

  lemma ScanKeepsCoherent(me: ReplicaId, pre: IndexState, obs: Observation, m: Renames, plan: seq<WirePath>, post: IndexState)
    requires Coherent(me, pre) && ScanOutcome(me, pre, obs, m, plan, post)
    requires post.counter <= U64_MAX && post.generation <= U64_MAX
    ensures Coherent(me, post) && pre.counter <= post.counter
  {
    hide Coherent, Carried, IsPlan, RenamesFit, IsRenameMap, Exhausted;
    RenamesInvert(pre.records, obs, m);
    RowsStayCoherent(me, pre, obs, m, plan, post);
  }

  lemma PushWrites(me: ReplicaId, pre: IndexState, path: WirePath, entry: Entry, post: IndexState)
    requires Coherent(me, pre) && PushOutcome(me, pre, path, entry, post)
    requires post.counter <= U64_MAX && post.generation <= U64_MAX
    ensures Writes(me, pre, map[path := path], post)
  {
  }

  /** A local change by `me`, over a state that satisfies the invariant. */
  ghost predicate LocalChange(s: System, me: ReplicaId, sources: map<WirePath, WirePath>, s': System) {
    && me in s.nodes && me in s'.nodes
    && Writes(me, s.nodes[me].index, sources, s'.nodes[me].index)
    && Follows(s, me, sources, s')
  }

  lemma LocalKeepsStored(s: System, me: ReplicaId, sources: map<WirePath, WirePath>, s': System)
    requires Stored(s) && LocalChange(s, me, sources, s')
    ensures Stored(s')
  {
    hide Coherent;
    forall r, p | r in s'.nodes && p in s'.nodes[r].index.records ensures HeldAt(s'.nodes[r], p) in s'.sent {
      if r == me && p !in sources {
        assert HeldAt(s'.nodes[r], p) == HeldAt(s.nodes[r], p);
      }
    }
  }

  /** What a new version knows: its own event, and otherwise what its source knew. */
  lemma NewVersion(s: System, me: ReplicaId, sources: map<WirePath, WirePath>, s': System, p: WirePath, x: ReplicaId)
    requires Stored(s) && Known(s) && LocalChange(s, me, sources, s') && p in sources && x in s.nodes
    ensures p in s'.nodes[me].index.records
    ensures s'.nodes[me].index.records[p].path == p
    ensures var v := s'.nodes[me].index.records[p].version;
            if x == me then s.nodes[me].index.counter < Get(v, x) <= s'.nodes[me].index.counter
            else Get(v, x) <= s.nodes[x].index.counter
  {
    var n := s.nodes[me];
    if sources[p] in n.index.records {
      assert HeldAt(n, sources[p]) in s.sent;
    }
  }

  lemma LocalKeepsKnown(s: System, me: ReplicaId, sources: map<WirePath, WirePath>, s': System)
    requires Stored(s) && Known(s) && LocalChange(s, me, sources, s')
    ensures Known(s')
  {
    forall h, r | h in s'.sent && r in s'.nodes ensures Get(h.record.version, r) <= s'.nodes[r].index.counter {
      if h !in s.sent {
        var p :| p in sources && h == HeldAt(s'.nodes[me], p);
        NewVersion(s, me, sources, s', p, r);
      }
    }
  }

  lemma LocalKeepsAuthors(s: System, me: ReplicaId, sources: map<WirePath, WirePath>, s': System)
    requires HasAuthor(s) && LocalChange(s, me, sources, s')
    ensures HasAuthor(s')
  {
    hide Writes;
    forall h | h in s'.sent ensures exists a :: a in s'.log && a.held == h {
      if h in s.sent {
        var a :| a in s.log && a.held == h;
        assert a in s'.log;
      } else {
        var p :| p in sources && h == HeldAt(s'.nodes[me], p);
        assert Authoring(s.clock, EventAt(me, s'.nodes[me], p), h) in s'.log;
      }
    }
  }

  lemma LocalKeepsLog(s: System, me: ReplicaId, sources: map<WirePath, WirePath>, s': System)
    requires Stored(s) && Known(s) && LogFits(s) && LocalChange(s, me, sources, s')
    ensures LogFits(s')
  {
    forall a | a in s'.log
      ensures
        && a.held in s'.sent && a.step < s'.clock && a.event.counter > 0 && a.event.replica in s'.nodes
        && Get(a.held.record.version, a.event.replica) == a.event.counter
        && a.held.record.path in s'.nodes[a.event.replica].index.records
        && a.event.counter <= Get(s'.nodes[a.event.replica].index.records[a.held.record.path].version, a.event.replica)
    {
      if a in s.log {
        var p := a.held.record.path;
        if a.event.replica == me && p in sources {
          NewVersion(s, me, sources, s', p, me);
          assert HeldAt(s.nodes[me], p) in s.sent;
        }
      } else {
        var p :| p in sources && a == Authoring(s.clock, EventAt(me, s'.nodes[me], p), HeldAt(s'.nodes[me], p));
        NewVersion(s, me, sources, s', p, me);
      }
    }
  }

  /** A new log entry belongs to `me`, to this step, and to the path it is stored under. */
  lemma NewEntry(s: System, me: ReplicaId, sources: map<WirePath, WirePath>, s': System, a: Authoring)
    requires Stored(s) && Known(s) && LocalChange(s, me, sources, s') && a in s'.log && a !in s.log
    ensures a.step == s.clock && a.event.replica == me && s.nodes[me].index.counter < a.event.counter
    ensures a.held.record.path in sources && a.held.record.path in s'.nodes[me].index.records && a.held.record.path in s'.nodes[me].history
    ensures a.event == EventAt(me, s'.nodes[me], a.held.record.path) && a.held == HeldAt(s'.nodes[me], a.held.record.path)
  {
    var p :| p in sources && a == Authoring(s.clock, EventAt(me, s'.nodes[me], p), HeldAt(s'.nodes[me], p));
    NewVersion(s, me, sources, s', p, me);
  }

  lemma LocalKeepsOrder(s: System, me: ReplicaId, sources: map<WirePath, WirePath>, s': System)
    requires Stored(s) && Known(s) && LogFits(s) && Ordered(s) && LocalChange(s, me, sources, s')
    ensures Ordered(s')
  {
    hide Writes, Follows, Stored;
    forall a, b | a in s'.log && b in s'.log ensures InOrder(a, b) {
      if b !in s.log {
        NewEntry(s, me, sources, s', b);
      }
      if a !in s.log {
        NewEntry(s, me, sources, s', a);
      } else if b !in s.log {
        assert a.held in s.sent && Get(a.held.record.version, me) <= s.nodes[me].index.counter;
      }
    }
  }

  /** The log entry a local change leaves for a path it writes. */
  lemma LoggedEntry(s: System, me: ReplicaId, sources: map<WirePath, WirePath>, s': System, p: WirePath)
    requires Stored(s) && Known(s) && LocalChange(s, me, sources, s') && p in sources
    ensures s.log <= s'.log
    ensures p in s'.nodes[me].index.records && p in s'.nodes[me].history
    ensures HeldAt(s'.nodes[me], p).record.path == p
    ensures Authoring(s.clock, EventAt(me, s'.nodes[me], p), HeldAt(s'.nodes[me], p)) in s'.log
    ensures s.nodes[me].index.counter < EventAt(me, s'.nodes[me], p).counter
  {
    hide Coherent, AtMost;
    NewVersion(s, me, sources, s', p, me);
  }

  lemma LogGrows(s: System, me: ReplicaId, sources: map<WirePath, WirePath>, s': System)
    requires LocalChange(s, me, sources, s')
    ensures s.log <= s'.log
  {
    hide Writes;
  }

  /** The events on a path after a local change: those before, and the new one if it was written. */
  lemma NewEvents(s: System, me: ReplicaId, sources: map<WirePath, WirePath>, s': System, p: WirePath)
    requires Stored(s) && Known(s) && LocalChange(s, me, sources, s')
    ensures p in sources ==> p in s'.nodes[me].index.records
    ensures EventsOn(s'.log, p) == EventsOn(s.log, p) + if p in sources then {EventAt(me, s'.nodes[me], p)} else {}
    ensures p in sources ==> s.nodes[me].index.counter < EventAt(me, s'.nodes[me], p).counter
  {
    hide Writes, Follows, Stored, Known;
    LogGrows(s, me, sources, s');
    if p in sources {
      LoggedEntry(s, me, sources, s', p);
    }
    forall e | e in EventsOn(s'.log, p) ensures e in EventsOn(s.log, p) || (p in sources && e == EventAt(me, s'.nodes[me], p)) {
      var a :| a in s'.log && a.held.record.path == p && a.event == e;
      if a !in s.log { NewEntry(s, me, sources, s', a); }
    }
  }

  /** Old versions stay faithful: the new event is beyond what they know. */
  lemma OldStaysFaithful(s: System, me: ReplicaId, sources: map<WirePath, WirePath>, s': System, h: Held)
    requires Stored(s) && Known(s) && LocalChange(s, me, sources, s') && h in s.sent && ClockIsHistory(s.log, h)
    ensures ClockIsHistory(s'.log, h)
  {
    hide Writes, Follows, Stored, EventsOn;
    NewEvents(s, me, sources, s', h.record.path);
    assert Get(h.record.version, me) <= s.nodes[me].index.counter;
  }

  /** What `me` knew of its own events on a path it writes. */
  lemma OwnEvents(s: System, me: ReplicaId, p: WirePath, e: Event)
    requires me in s.nodes && LogFits(s) && e in EventsOn(s.log, p)
    ensures e.counter > 0
    ensures e.replica == me ==> e.counter <= Get(VersionAt(s.nodes[me].index.records, p), me)
  {
  }

  /** Advancing a faithful clock by one fresh event keeps it faithful. */
  lemma ClockAdvances(before: set<Event>, after: set<Event>, history: set<Event>, v: VersionVector, e: Event, log: set<Authoring>, h: Held)
    requires forall d :: d in history <==> d in before && d.counter <= Get(v, d.replica)
    requires forall x :: Get(v, x) > 0 ==> Event(x, Get(v, x)) in history
    requires forall d :: d in before && d.replica == e.replica ==> d.counter <= Get(v, e.replica)
    requires after == before + {e} && after == EventsOn(log, h.record.path)
    requires Get(v, e.replica) < e.counter == Get(h.record.version, e.replica)
    requires forall x :: x != e.replica ==> Get(h.record.version, x) == Get(v, x)
    requires h.history == history + {e}
    ensures ClockIsHistory(log, h)
  {
    hide EventsOn;
  }

  /** The version a local change starts from, even when the path is new. */
  lemma BaseIsFaithful(s: System, me: ReplicaId, p: WirePath)
    requires Stored(s) && LogFits(s) && Faithful(s) && me in s.nodes && p !in s.targets
    ensures var history, v := s.nodes[me].HistoryAt(p), VersionAt(s.nodes[me].index.records, p);
            && (forall d :: d in history <==> d in EventsOn(s.log, p) && d.counter <= Get(v, d.replica))
            && (forall x :: Get(v, x) > 0 ==> Event(x, Get(v, x)) in history)
            && (forall d :: d in EventsOn(s.log, p) && d.replica == me ==> d.counter <= Get(v, me))
  {
    forall d | d in EventsOn(s.log, p)
      ensures d.counter > 0 && (d.replica == me ==> d.counter <= Get(VersionAt(s.nodes[me].index.records, p), me))
    {
      OwnEvents(s, me, p, d);
    }
    if p in s.nodes[me].index.records {
      hide EventsOn;
      assert HeldAt(s.nodes[me], p) in s.sent && HeldAt(s.nodes[me], p).record.path == p;
    }
  }

  lemma NewIsFaithful(s: System, me: ReplicaId, sources: map<WirePath, WirePath>, s': System, p: WirePath)
    requires Stored(s) && Known(s) && LogFits(s) && Faithful(s) && LocalChange(s, me, sources, s')
    requires p in sources && sources[p] == p && p !in s.targets
    requires p in s'.nodes[me].index.records && p in s'.nodes[me].history
    ensures ClockIsHistory(s'.log, HeldAt(s'.nodes[me], p))
  {
    hide EventsOn, Stored, LogFits, Faithful, Known;
    var pre, post := s.nodes[me], s'.nodes[me];
    NewVersion(s, me, sources, s', p, me);
    NewEvents(s, me, sources, s', p);
    BaseIsFaithful(s, me, p);
    OwnBound(s, me, p);
    ClockAdvances(EventsOn(s.log, p), EventsOn(s'.log, p), pre.HistoryAt(p), VersionAt(pre.index.records, p),
                  EventAt(me, post, p), s'.log, HeldAt(post, p));
  }

  lemma OwnBound(s: System, me: ReplicaId, p: WirePath)
    requires Stored(s) && me in s.nodes
    ensures Get(VersionAt(s.nodes[me].index.records, p), me) <= s.nodes[me].index.counter
  {
  }

  lemma LocalKeepsFaithful(s: System, me: ReplicaId, sources: map<WirePath, WirePath>, s': System)
    requires Stored(s) && Known(s) && LogFits(s) && Faithful(s) && LocalChange(s, me, sources, s')
    ensures Faithful(s')
  {
    hide Writes, ClockIsHistory, Known, LogFits;
    forall h | h in s'.sent && h.record.path !in s'.targets ensures ClockIsHistory(s'.log, h) {
      if h in s.sent {
        OldStaysFaithful(s, me, sources, s', h);
      } else {
        var p :| p in sources && h == HeldAt(s'.nodes[me], p);
        NewVersion(s, me, sources, s', p, me);
        NewIsFaithful(s, me, sources, s', p);
      }
    }
  }

  lemma LocalKeepsShared(s: System, me: ReplicaId, sources: map<WirePath, WirePath>, s': System)
    requires Stored(s) && Known(s) && LogFits(s) && Shared(s) && LocalChange(s, me, sources, s')
    ensures Shared(s')
  {
    hide Stored, Coherent;
    forall a, b | a in s'.log && b in s'.log && a.event == b.event && a.held.record.path != b.held.record.path
      ensures a.held.record.path in s'.targets || b.held.record.path in s'.targets
    {
      if a !in s.log { NewEntry(s, me, sources, s', a); } else { assert Get(a.held.record.version, me) <= s.nodes[me].index.counter; }
      if b !in s.log { NewEntry(s, me, sources, s', b); } else { assert Get(b.held.record.version, me) <= s.nodes[me].index.counter; }
    }
  }

  lemma LocalKeepsInv(s: System, me: ReplicaId, sources: map<WirePath, WirePath>, s': System)
    requires Inv(s) && LocalChange(s, me, sources, s')
    ensures Inv(s')
  {
    hide Stored, Known, HasAuthor, LogFits, Ordered, Faithful, Shared, LocalChange;
    LocalKeepsStored(s, me, sources, s');
    LocalKeepsKnown(s, me, sources, s');
    LocalKeepsAuthors(s, me, sources, s');
    LocalKeepsLog(s, me, sources, s');
    LocalKeepsOrder(s, me, sources, s');
    LocalKeepsFaithful(s, me, sources, s');
    LocalKeepsShared(s, me, sources, s');
  }

  // ---------------------------------------------------------------- adoption

  lemma AdoptKeepsInv(s: System, me: ReplicaId, message: Held, s': System)
    requires Inv(s) && Next(s, AdoptFrom(me, message), s')
    ensures Inv(s')
  {
    hide Ordered, HasAuthor, Faithful, Shared;
    AdoptKeepsStored(s, me, message, s');
    AdoptKeepsLog(s, me, message, s');
    AdoptKeepsRest(s, me, message, s');
  }

  lemma AdoptKeepsStored(s: System, me: ReplicaId, message: Held, s': System)
    requires Stored(s) && Known(s) && Next(s, AdoptFrom(me, message), s')
    ensures Stored(s') && Known(s')
  {
    var pre, post := s.nodes[me], s'.nodes[me];
    forall r, p | r in s'.nodes && p in s'.nodes[r].index.records
      ensures p in s'.nodes[r].history && HeldAt(s'.nodes[r], p) in s'.sent
    {
      if r == me {
        if p == message.record.path {
          assert HeldAt(post, p) == message;
        } else {
          assert HeldAt(post, p) == HeldAt(pre, p);
        }
      }
    }
    assert Get(message.record.version, me) <= pre.index.counter;
    assert Coherent(me, post.index);
  }

  lemma AdoptKeepsLog(s: System, me: ReplicaId, message: Held, s': System)
    requires Stored(s) && LogFits(s) && Next(s, AdoptFrom(me, message), s')
    ensures LogFits(s')
  {
    hide Coherent;
    forall a | a in s'.log
      ensures a.held.record.path in s'.nodes[a.event.replica].index.records
      ensures a.event.counter <= Get(s'.nodes[a.event.replica].index.records[a.held.record.path].version, a.event.replica)
    {
      if a.event.replica == me && a.held.record.path == message.record.path {
        assert AtMost(s.nodes[me].index.records[a.held.record.path].version, message.record.version);
      }
    }
  }

  lemma AdoptKeepsRest(s: System, me: ReplicaId, message: Held, s': System)
    requires HasAuthor(s) && Ordered(s) && Faithful(s) && Shared(s) && Next(s, AdoptFrom(me, message), s')
    ensures HasAuthor(s') && Ordered(s') && Faithful(s') && Shared(s')
  {
    hide ClockIsHistory, InOrder;
  }

  // ---------------------------------------------------------------- every run

  lemma StepKeepsInv(s: System, step: Step, s': System)
    requires Inv(s) && Next(s, step, s')
    ensures Inv(s')
  {
    hide Inv, ScanOutcome, Follows, Writes, PushOutcome;
    OwnCoherent(s, step.replica);
    match step {
      case ScanLocal(me, obs, m, plan) =>
        ScanWrites(me, s.nodes[me].index, obs, m, plan, s'.nodes[me].index);
        LocalKeepsInv(s, me, ScanSources(s.nodes[me].index, obs, m, plan), s');
      case PushLocal(me, path, entry) =>
        PushWrites(me, s.nodes[me].index, path, entry, s'.nodes[me].index);
        LocalKeepsInv(s, me, map[path := path], s');
      case AdoptFrom(me, message) =>
        AdoptKeepsInv(s, me, message, s');
    }
  }

  lemma OwnCoherent(s: System, me: ReplicaId)
    requires Inv(s) && me in s.nodes
    ensures Coherent(me, s.nodes[me].index)
  {
    hide Known, HasAuthor, LogFits, Ordered, Faithful;
  }

  lemma InitHasInv(s: System)
    requires Init(s)
    ensures Inv(s)
  {
  }

  /** The invariant holds in every state of every run. */
  lemma {:induction false} RunsKeepInv(states: seq<System>, steps: seq<Step>)
    requires IsRun(states, steps)
    ensures forall i :: 0 <= i < |states| ==> Inv(states[i])
  {
    hide Inv, Next, Init;
    if steps == [] {
      InitHasInv(states[0]);
    } else {
      var n := |steps|;
      assert IsRun(states[..n], steps[..n - 1]);
      RunsKeepInv(states[..n], steps[..n - 1]);
      assert states[n - 1] == states[..n][n - 1];
      StepKeepsInv(states[n - 1], steps[n - 1], states[n]);
      forall i | 0 <= i < |states| ensures Inv(states[i]) {
        if i < n { assert states[i] == states[..n][i]; }
      }
    }
  }

  /** The step is a scan in which `r` found another path renamed to `p`. */
  predicate RenamesOnto(step: Step, r: ReplicaId, p: WirePath) {
    step.ScanLocal? && step.replica == r && p in step.m.source
  }

  /** No step drops a row, and none lets its clock go down, except that a rename onto a path that
      holds a tombstone replaces the clock. */
  lemma RowsAdvance(s: System, step: Step, s': System, r: ReplicaId, p: WirePath)
    requires Inv(s) && Next(s, step, s') && r in s.nodes && p in s.nodes[r].index.records
    ensures r in s'.nodes && p in s'.nodes[r].index.records
    ensures if RenamesOnto(step, r, p) then s.nodes[r].index.records[p].tombstone
            else AtMost(s.nodes[r].index.records[p].version, s'.nodes[r].index.records[p].version)
  {
    hide Inv, ScanOutcome, AtMost;
    OwnCoherent(s, r);
    var version := s.nodes[r].index.records[p].version;
    NeverDown(version);
    match step {
      case ScanLocal(me, obs, m, plan) =>
        if me == r {
          ScanLaws.ClocksAdvance(me, s.nodes[me].index, obs, m, plan, s'.nodes[me].index, p);
        }
      case PushLocal(me, path, entry) =>
        ObserveGrows(version, me, s.nodes[me].index.counter + 1);
      case AdoptFrom(me, message) =>
    }
  }

  lemma NeverDown(v: VersionVector)
    ensures AtMost(v, v)
  {
  }

  lemma ObserveGrows(v: VersionVector, replica: ReplicaId, counter: nat)
    ensures AtMost(v, Observe(v, replica, counter))
  {
  }

  lemma AtMostTransitive(a: VersionVector, b: VersionVector, c: VersionVector)
    requires AtMost(a, b) && AtMost(b, c)
    ensures AtMost(a, c)
  {
    forall x ensures Get(a, x) <= Get(c, x) {
      assert Get(a, x) <= Get(b, x);
    }
  }

  /** Between two states of a run, `r` found some path renamed to `p`, which held a tombstone. */
  ghost predicate RenamedBetween(states: seq<System>, steps: seq<Step>, i: nat, j: nat, r: ReplicaId, p: WirePath)
    requires i <= j < |states| == |steps| + 1
  {
    exists k :: i <= k < j && RenamesOnto(steps[k], r, p)
                && r in states[k].nodes && p in states[k].nodes[r].index.records && states[k].nodes[r].index.records[p].tombstone
  }

  /** In every run: a row once held is never dropped, and its clock only grows from then on, unless a
      rename landed on the path in between, while it held a tombstone. */
  lemma {:induction false} ClocksNeverGoDown(states: seq<System>, steps: seq<Step>, i: nat, j: nat, r: ReplicaId, p: WirePath)
    requires IsRun(states, steps) && i <= j < |states|
    requires r in states[i].nodes && p in states[i].nodes[r].index.records
    ensures r in states[j].nodes && p in states[j].nodes[r].index.records
    ensures RenamedBetween(states, steps, i, j, r, p)
            || AtMost(states[i].nodes[r].index.records[p].version, states[j].nodes[r].index.records[p].version)
    decreases j
  {
    hide Inv, Next, Init, AtMost;
    if i == j {
      NeverDown(states[i].nodes[r].index.records[p].version);
    } else {
      ClocksNeverGoDown(states, steps, i, j - 1, r, p);
      RunsKeepInv(states, steps);
      RowsAdvance(states[j - 1], steps[j - 1], states[j], r, p);
      if RenamesOnto(steps[j - 1], r, p) {
        assert RenamedBetween(states, steps, i, j, r, p);
      } else if RenamedBetween(states, steps, i, j - 1, r, p) {
        assert RenamedBetween(states, steps, i, j, r, p);
      } else {
        AtMostTransitive(states[i].nodes[r].index.records[p].version, states[j - 1].nodes[r].index.records[p].version,
                         states[j].nodes[r].index.records[p].version);
      }
    }
  }

  ghost predicate Reached(states: seq<System>, steps: seq<Step>, s: System) {
    IsRun(states, steps) && s == states[|states| - 1]
  }

  lemma ReachedHasInv(states: seq<System>, steps: seq<Step>, s: System)
    requires Reached(states, steps, s)
    ensures Inv(s)
  {
    hide Inv;
    RunsKeepInv(states, steps);
  }

  /** Unique events: two versions of a path with the same clock are the same version. */
  lemma SameClockSameVersion(s: System, a: Held, b: Held)
    requires Inv(s) && a in s.sent && b in s.sent
    requires a.record.path == b.record.path && Relation(a.record.version, b.record.version) == Equal
    ensures a == b
  {
    hide Stored, Known, Faithful;
    var x :| x in s.log && x.held == a;
    var y :| y in s.log && y.held == b;
    assert InOrder(x, y) && InOrder(y, x);
  }

  /** In every run, two versions of a path held anywhere whose clocks are equal are identical in
      state and history; so the rejection of a reused causal version never fires. */
  lemma UniqueEvents(states: seq<System>, steps: seq<Step>, s: System, me: ReplicaId, message: Held)
    requires Reached(states, steps, s) && me in s.nodes && message in s.sent
    ensures forall a, b ::
              a in s.sent && b in s.sent && a.record.path == b.record.path && Relation(a.record.version, b.record.version) == Equal
              ==> a == b
    ensures Get(message.record.version, me) <= s.nodes[me].index.counter
    ensures var records := s.nodes[me].index.records;
            message.record.path in records && Relation(records[message.record.path].version, message.record.version) == Equal ==>
              records[message.record.path].ToSync() == message.record
  {
    hide Inv, Relation, Reached;
    ReachedHasInv(states, steps, s);
    forall a, b | a in s.sent && b in s.sent && a.record.path == b.record.path && Relation(a.record.version, b.record.version) == Equal
      ensures a == b
    {
      SameClockSameVersion(s, a, b);
    }
    OwnVersions(s, me, message);
  }

  lemma OwnVersions(s: System, me: ReplicaId, message: Held)
    requires Inv(s) && me in s.nodes && message in s.sent
    ensures Get(message.record.version, me) <= s.nodes[me].index.counter
    ensures forall p :: p in s.nodes[me].index.records ==>
              && p in s.nodes[me].history
              && HeldAt(s.nodes[me], p) in s.sent
              && s.nodes[me].index.records[p].path == p
  {
    hide HasAuthor, LogFits, Ordered, Faithful;
  }

  /** For a path no rename landed on, comparing clocks is comparing histories. */
  lemma ClocksAreHistories(log: set<Authoring>, a: Held, b: Held)
    requires ClockIsHistory(log, a) && ClockIsHistory(log, b) && a.record.path == b.record.path
    ensures AtMost(a.record.version, b.record.version) <==> a.history <= b.history
  {
    hide EventsOn;
    if a.history <= b.history {
      forall x ensures Get(a.record.version, x) <= Get(b.record.version, x) {
        if Get(a.record.version, x) > 0 {
          assert Event(x, Get(a.record.version, x)) in b.history;
        }
      }
    }
  }

  /** No lost update: in every run, on a path no rename landed on, a receiver accepts a version
      over its own only if every event behind its own stands behind the incoming one; and it
      turns one down as stale or concurrent only when its own holds an event the other lacks. */
  lemma NoLostUpdate(states: seq<System>, steps: seq<Step>, s: System, me: ReplicaId, message: Held)
    requires Reached(states, steps, s) && me in s.nodes && message in s.sent
    requires message.record.path !in s.targets && message.record.path in s.nodes[me].index.records
    ensures message.record.path in s.nodes[me].history
    ensures Applicable(me, s.nodes[me].index, message.record) <==> s.nodes[me].history[message.record.path] <= message.history
  {
    hide Inv, Reached, ClockIsHistory, AtMost;
    ReachedHasInv(states, steps, s);
    var p := message.record.path;
    OwnVersions(s, me, message);
    var current := HeldAt(s.nodes[me], p);
    FaithfulAt(s, current);
    FaithfulAt(s, message);
    ClocksAreHistories(s.log, current, message);
    if Relation(current.record.version, message.record.version) == Equal {
      SameClockSameVersion(s, current, message);
    }
  }

  /** In an invariant state the causal check compares clocks, whatever renames there were: a receiver
      takes a version in circulation over its own exactly when the clock covers its own. */
  lemma AcceptsExactly(s: System, me: ReplicaId, message: Held)
    requires Inv(s) && me in s.nodes && message in s.sent && message.record.path in s.nodes[me].index.records
    ensures Applicable(me, s.nodes[me].index, message.record) <==>
            AtMost(s.nodes[me].index.records[message.record.path].version, message.record.version)
  {
    hide Inv, AtMost;
    OwnVersions(s, me, message);
    var current := HeldAt(s.nodes[me], message.record.path);
    if Relation(current.record.version, message.record.version) == Equal {
      SameClockSameVersion(s, current, message);
    }
  }

  lemma FaithfulAt(s: System, h: Held)
    requires Inv(s) && h in s.sent && h.record.path !in s.targets
    ensures ClockIsHistory(s.log, h)
  {
    hide Stored, Known, HasAuthor, LogFits, Ordered, ClockIsHistory;
  }
}
