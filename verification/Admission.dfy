/** The registry that keeps public roots of all processes of one user apart from each other and
    from private directories. One process at a time holds the global lock; leases are released, and
    processes crash, at any moment. */
module Admission {
  import opened Core

  datatype Use = Legacy | Managed(share: nat, owner: nat)

  datatype Entry = Entry(use: Use, preparing: bool)

  datatype Target = Target(root: WirePath, use: Use)

  /** How far the holder of the global lock has come: reading the catalog, holding its own lease,
      with the private reservations committed, with the intent committed, with the marker written. */
  datatype Phase = Scanning(todo: set<WirePath>, stale: set<WirePath>) | Leased(stale: set<WirePath>) | Reserved | Intended | Marked

  datatype Session = Idle | Busy(process: nat, public: Option<Target>, private: set<WirePath>, phase: Phase)

  /** The durable tables and markers, the operating system's lease locks, and the holder of the
      global lock. The registry's own directory is one of the reserved private paths. */
  datatype State = State(
    roots: map<WirePath, Entry>,
    reserved: set<WirePath>,
    markers: map<WirePath, Use>,
    leases: map<WirePath, nat>,
    session: Session)

  predicate Overlap(a: WirePath, b: WirePath) {
    Overlaps(a.components, b.components)
  }

  predicate ClearOf(root: WirePath, private: set<WirePath>) {
    forall p :: p in private ==> !Overlap(root, p)
  }

  /** The root that the session has leased but not yet handed out. */
  predicate InFlight(session: Session, r: WirePath) {
    session.Busy? && !session.phase.Scanning? && session.public.Some? && session.public.value.root == r
  }

  // ---------------------------------------------------------------- steps

  datatype Event =
    | Begin(process: nat, public: Option<Target>, private: set<WirePath>)
    | RecoverMarker(root: WirePath)
    | RecoverEntry(root: WirePath)
    | Pass(root: WirePath)
    | TakeLease
    | Reserve
    | Intend
    | Mark
    | Settle
    | Abort
    | Release(root: WirePath)
    | Crash(process: nat)

  /** An entry without a holder that no managed binding protects. */
  predicate Dormant(s: State, r: WirePath)
    requires r in s.roots
  {
    s.roots[r].use == Legacy && r !in s.leases
  }

  predicate Compatible(s: State, r: WirePath)
    requires r in s.roots && s.session.Busy?
  {
    && ClearOf(r, s.session.private)
    && (s.session.public.Some? && Overlap(s.session.public.value.root, r) ==>
          r !in s.leases && s.session.public.value == Target(r, s.roots[r].use) && s.roots[r].use.Managed?)
  }

  predicate ScanningAt(s: State, r: WirePath) {
    s.session.Busy? && s.session.phase.Scanning? && r in s.session.phase.todo && r in s.roots
  }

  predicate Enabled(s: State, e: Event) {
    match e
    case Begin(_, public, private) =>
      s.session.Idle?
      && (public.Some? ==> ClearOf(public.value.root, private) && ClearOf(public.value.root, s.reserved))
    case RecoverMarker(r) =>
      ScanningAt(s, r) && s.roots[r].preparing && (r in s.markers ==> s.markers[r] == s.roots[r].use)
    case RecoverEntry(r) =>
      ScanningAt(s, r) && s.roots[r].preparing && r in s.markers && s.markers[r] == s.roots[r].use
    case Pass(r) =>
      ScanningAt(s, r)
      && (Dormant(s, r)
          || (Compatible(s, r) && !s.roots[r].preparing
              && (s.roots[r].use.Managed? ==> r in s.markers && s.markers[r] == s.roots[r].use)))
    case TakeLease =>
      s.session.Busy? && s.session.phase.Scanning? && s.session.phase.todo == {}
      && (s.session.public.Some? ==>
            var t := s.session.public.value;
            t.root !in s.leases && (t.root in s.markers ==> s.markers[t.root] == t.use && t.use.Managed?))
    case Reserve => s.session.Busy? && s.session.phase.Leased?
    case Intend => s.session.Busy? && s.session.phase.Reserved?
    case Mark =>
      s.session.Busy? && s.session.phase.Intended? && s.session.public.Some?
      && (s.session.public.value.root in s.markers ==> s.markers[s.session.public.value.root] == s.session.public.value.use)
    case Settle => s.session.Busy? && s.session.phase.Marked? && s.session.public.Some?
    case Abort => s.session.Busy?
    case Release(r) => r in s.leases && !InFlight(s.session, r)
    case Crash(_) => true
  }

  function At(s: State, phase: Phase): State
    requires s.session.Busy?
  {
    s.(session := s.session.(phase := phase))
  }

  function Apply(s: State, e: Event): State
    requires Enabled(s, e)
  {
    match e
    case Begin(process, public, private) =>
      s.(session := Busy(process, public, private, Scanning(s.roots.Keys, {})))
    case RecoverMarker(r) => s.(markers := s.markers[r := s.roots[r].use])
    case RecoverEntry(r) => s.(roots := s.roots[r := s.roots[r].(preparing := false)])
    case Pass(r) =>
      var scan := s.session.phase;
      At(s, Scanning(scan.todo - {r}, if Dormant(s, r) then scan.stale + {r} else scan.stale))
    case TakeLease =>
      var next := At(s, Leased(s.session.phase.stale));
      if s.session.public.Some? then next.(leases := s.leases[s.session.public.value.root := s.session.process]) else next
    case Reserve =>
      At(s, Reserved).(reserved := s.reserved + s.session.private, roots := s.roots - s.session.phase.stale)
    case Intend =>
      if s.session.public.None? then s.(session := Idle)
      else
        var t := s.session.public.value;
        var next := if t.use.Managed? then At(s, Intended) else s.(session := Idle);
        next.(roots := s.roots[t.root := Entry(t.use, t.use.Managed?)])
    case Mark => At(s, Marked).(markers := s.markers[s.session.public.value.root := s.session.public.value.use])
    case Settle =>
      var t := s.session.public.value;
      s.(session := Idle, roots := s.roots[t.root := Entry(t.use, false)])
    case Abort => s.(session := Idle, leases := map r | r in s.leases && !InFlight(s.session, r) :: s.leases[r])
    case Release(r) => s.(leases := s.leases - {r})
    case Crash(process) =>
      s.(leases := map r | r in s.leases && s.leases[r] != process :: s.leases[r],
      session := if s.session.Busy? && s.session.process == process then Idle else s.session)
  }

  ghost predicate Runs(s: State, events: seq<Event>, t: State)
    decreases |events|
  {
    if events == [] then t == s
    else Enabled(s, events[0]) && Runs(Apply(s, events[0]), events[1..], t)
  }

  function Fresh(registry: WirePath): State {
    State(map[], {registry}, map[], map[], Idle)
  }

  // ---------------------------------------------------------------- safety

  /** A root that is published now, or bound for good. */
  predicate Effective(s: State, r: WirePath) {
    r in s.leases || (r in s.roots && s.roots[r].use.Managed?)
  }

  ghost predicate Separate(s: State) {
    forall a, b :: Effective(s, a) && Effective(s, b) && a != b ==> !Overlap(a, b)
  }

  ghost predicate Shielded(s: State) {
    forall a :: Effective(s, a) ==> ClearOf(a, s.reserved)
  }

  ghost predicate Registered(s: State) {
    forall r :: r in s.leases ==> r in s.roots || InFlight(s.session, r)
  }

  ghost predicate MarkersMatch(s: State) {
    && (forall r :: r in s.roots && s.roots[r].preparing ==> s.roots[r].use.Managed?)
    && (forall r :: r in s.roots && s.roots[r].use.Managed? && !s.roots[r].preparing ==>
          r in s.markers && s.markers[r] == s.roots[r].use)
    && (forall r :: r in s.markers ==> r in s.roots && s.roots[r].use == s.markers[r] && s.markers[r].Managed?)
  }

  /** What the session has established about a catalog entry; a lease may since have ended, but
      none but its own can have begun. */
  ghost predicate Checked(s: State, r: WirePath, stale: set<WirePath>)
    requires r in s.roots && s.session.Busy?
  {
    if r in stale then s.roots[r].use == Legacy && (r !in s.leases || InFlight(s.session, r))
    else
      && ClearOf(r, s.session.private)
      && (s.session.public.Some? && Overlap(s.session.public.value.root, r) ==>
            s.session.public.value == Target(r, s.roots[r].use) && s.roots[r].use.Managed?)
  }

  ghost predicate AllChecked(s: State)
    requires s.session.Busy?
  {
    match s.session.phase
    case Scanning(todo, stale) => stale !! todo && forall r :: r in s.roots && r !in todo ==> Checked(s, r, stale)
    case Leased(stale) => forall r :: r in s.roots ==> Checked(s, r, stale)
    case _ => true
  }

  ghost predicate OwnRoot(s: State)
    requires s.session.Busy? && s.session.public.Some?
  {
    var t := s.session.public.value;
    && ClearOf(t.root, s.session.private) && ClearOf(t.root, s.reserved)
    && (!s.session.phase.Scanning? ==>
          && t.root in s.leases && s.leases[t.root] == s.session.process
          && (t.root in s.markers ==> s.markers[t.root] == t.use && t.use.Managed?))
    && (s.session.phase.Reserved? && t.root in s.roots ==> s.roots[t.root].use == t.use && t.use.Managed?)
    && (s.session.phase.Intended? || s.session.phase.Marked? ==>
          t.use.Managed? && t.root in s.roots && s.roots[t.root] == Entry(t.use, true))
    && (s.session.phase.Marked? ==> t.root in s.markers)
  }

  ghost predicate SessionOk(s: State) {
    s.session.Busy? ==>
      && AllChecked(s)
      && (s.session.public.Some? ==> OwnRoot(s))
      && (s.session.public.None? ==> !s.session.phase.Intended? && !s.session.phase.Marked?)
  }

  ghost predicate Safe(s: State) {
    Separate(s) && Shielded(s) && Registered(s) && MarkersMatch(s) && SessionOk(s)
  }

  /** Managed bindings keep their owner, and private reservations stay. */
  ghost predicate Keeps(s: State, t: State) {
    && s.reserved <= t.reserved
    && (forall r :: r in s.roots && s.roots[r].use.Managed? ==> r in t.roots && t.roots[r].use == s.roots[r].use)
    && (forall r :: r in s.markers ==> r in t.markers && t.markers[r] == s.markers[r])
  }

  lemma BeginIsSafe(s: State, process: nat, public: Option<Target>, private: set<WirePath>)
    requires Safe(s) && Enabled(s, Begin(process, public, private))
    ensures Safe(Apply(s, Begin(process, public, private))) && Keeps(s, Apply(s, Begin(process, public, private)))
  {
  }

  lemma RecoverMarkerIsSafe(s: State, r: WirePath)
    requires Safe(s) && Enabled(s, RecoverMarker(r))
    ensures Safe(Apply(s, RecoverMarker(r))) && Keeps(s, Apply(s, RecoverMarker(r)))
  {
  }

  lemma RecoverEntryIsSafe(s: State, r: WirePath)
    requires Safe(s) && Enabled(s, RecoverEntry(r))
    ensures Safe(Apply(s, RecoverEntry(r))) && Keeps(s, Apply(s, RecoverEntry(r)))
  {
  }

  lemma PassIsSafe(s: State, r: WirePath)
    requires Safe(s) && Enabled(s, Pass(r))
    ensures Safe(Apply(s, Pass(r))) && Keeps(s, Apply(s, Pass(r)))
  {
  }

  lemma TakeLeaseIsSafe(s: State)
    requires Safe(s) && Enabled(s, TakeLease)
    ensures Safe(Apply(s, TakeLease)) && Keeps(s, Apply(s, TakeLease))
  {
  }

  lemma ReserveIsSafe(s: State)
    requires Safe(s) && Enabled(s, Reserve)
    ensures Safe(Apply(s, Reserve)) && Keeps(s, Apply(s, Reserve))
  {
    var next := Apply(s, Reserve);
    forall a | Effective(next, a) ensures ClearOf(a, next.reserved) {
      if a in s.roots { assert Checked(s, a, s.session.phase.stale); }
      assert Effective(s, a) && ClearOf(a, s.session.private);
    }
  }

  lemma IntendIsSafe(s: State)
    requires Safe(s) && Enabled(s, Intend)
    ensures Safe(Apply(s, Intend)) && Keeps(s, Apply(s, Intend))
  {
  }

  lemma MarkIsSafe(s: State)
    requires Safe(s) && Enabled(s, Mark)
    ensures Safe(Apply(s, Mark)) && Keeps(s, Apply(s, Mark))
  {
  }

  lemma SettleIsSafe(s: State)
    requires Safe(s) && Enabled(s, Settle)
    ensures Safe(Apply(s, Settle)) && Keeps(s, Apply(s, Settle))
  {
  }

  lemma AbortIsSafe(s: State)
    requires Safe(s) && Enabled(s, Abort)
    ensures Safe(Apply(s, Abort)) && Keeps(s, Apply(s, Abort))
  {
  }

  lemma ReleaseIsSafe(s: State, r: WirePath)
    requires Safe(s) && Enabled(s, Release(r))
    ensures Safe(Apply(s, Release(r))) && Keeps(s, Apply(s, Release(r)))
  {
  }

  lemma CrashIsSafe(s: State, process: nat)
    requires Safe(s) && Enabled(s, Crash(process))
    ensures Safe(Apply(s, Crash(process))) && Keeps(s, Apply(s, Crash(process)))
  {
  }

  lemma StepIsSafe(s: State, e: Event)
    requires Safe(s) && Enabled(s, e)
    ensures Safe(Apply(s, e)) && Keeps(s, Apply(s, e))
  {
    hide Safe, Keeps, Enabled, Apply;
    match e
    case Begin(process, public, private) => BeginIsSafe(s, process, public, private);
    case RecoverMarker(r) => RecoverMarkerIsSafe(s, r);
    case RecoverEntry(r) => RecoverEntryIsSafe(s, r);
    case Pass(r) => PassIsSafe(s, r);
    case TakeLease => TakeLeaseIsSafe(s);
    case Reserve => ReserveIsSafe(s);
    case Intend => IntendIsSafe(s);
    case Mark => MarkIsSafe(s);
    case Settle => SettleIsSafe(s);
    case Abort => AbortIsSafe(s);
    case Release(r) => ReleaseIsSafe(s, r);
    case Crash(process) => CrashIsSafe(s, process);
  }

  /** Ownership fails closed, in any state: while the marker of a settled binding is missing or says
      something else, no session gets past its entry to a lease of its own; and a marker that says
      something else is never overwritten. */
  lemma MarkersFailClosed(s: State, r: WirePath)
    requires r in s.roots && s.roots[r].use.Managed? && !(r in s.markers && s.markers[r] == s.roots[r].use)
    ensures !s.roots[r].preparing ==> !Enabled(s, Pass(r))
    ensures s.session.Busy? && s.session.phase.Scanning? && r in s.session.phase.todo ==> !Enabled(s, TakeLease) && !Enabled(s, RecoverEntry(r))
    ensures r in s.markers ==> !Enabled(s, RecoverMarker(r))
    ensures r in s.markers && s.session.Busy? && s.session.public == Some(Target(r, s.roots[r].use)) ==>
              !Enabled(s, TakeLease) && !Enabled(s, Mark)
  {
  }

  /** What a session gets past, in any state: an entry without holder or owner, which is set aside; or a
      settled entry that is in nobody's way, with its marker if it is managed. */
  lemma PassedIsSettled(s: State, r: WirePath)
    requires Enabled(s, Pass(r))
    ensures r in s.roots && r in s.session.phase.todo
    ensures if s.roots[r].use == Legacy && r !in s.leases then Apply(s, Pass(r)).session.phase.stale == s.session.phase.stale + {r}
            else
              && !s.roots[r].preparing && ClearOf(r, s.session.private)
              && (s.roots[r].use != Legacy ==> r in s.markers && s.markers[r] == s.roots[r].use)
              && Apply(s, Pass(r)).session.phase.stale == s.session.phase.stale
  {
  }

  lemma {:induction false} RunsKeepSafe(s: State, events: seq<Event>, t: State)
    requires Safe(s) && Runs(s, events, t)
    ensures Safe(t) && Keeps(s, t)
    decreases |events|
  {
    hide Safe, Enabled, Apply;
    if events != [] {
      StepIsSafe(s, events[0]);
      RunsKeepSafe(Apply(s, events[0]), events[1..], t);
    }
  }

  /** After every step of every run, with releases and crashes anywhere: published and bound roots
      lie apart from each other and from all private paths, the registry among them; a settled
      binding has its marker; and what was bound or reserved at any earlier moment `m` still is. */
  lemma RootsStayApart(registry: WirePath, before: seq<Event>, m: State, after: seq<Event>, t: State)
    requires Runs(Fresh(registry), before, m) && Runs(m, after, t)
    ensures forall a, b :: Effective(t, a) && Effective(t, b) && a != b ==> !(a.components <= b.components)
    ensures forall a, p :: Effective(t, a) && p in t.reserved ==> !(a.components <= p.components) && !(p.components <= a.components)
    ensures forall r :: Effective(t, r) <==> r in t.leases || (r in t.roots && t.roots[r].use != Legacy)
    ensures registry in t.reserved && m.reserved <= t.reserved
    ensures forall r :: r in m.roots && m.roots[r].use.Managed? ==> r in t.roots && t.roots[r].use == m.roots[r].use
    ensures forall r :: r in t.roots && t.roots[r].use.Managed? && !t.roots[r].preparing ==>
              r in t.markers && t.markers[r] == t.roots[r].use
    ensures t.session.Idle? ==> forall r :: r in t.leases ==> r in t.roots
  {
    hide Runs;
    RunsKeepSafe(Fresh(registry), before, m);
    RunsKeepSafe(m, after, t);
    forall a, b | Effective(t, a) && Effective(t, b) && a != b ensures !(a.components <= b.components) {
      assert !Overlap(a, b);
    }
    forall a, p | Effective(t, a) && p in t.reserved
      ensures !(a.components <= p.components) && !(p.components <= a.components)
    {
      assert ClearOf(a, t.reserved) && !Overlap(a, p);
    }
  }

  lemma {:induction false} RunsExtend(s: State, events: seq<Event>, t: State, e: Event)
    requires Runs(s, events, t) && Enabled(t, e)
    ensures Runs(s, events + [e], Apply(t, e))
    decreases |events|
  {
    hide Enabled, Apply;
    if events == [] {
      assert [e][1..] == [];
      assert Runs(Apply(t, e), [], Apply(t, e));
    } else {
      assert (events + [e])[0] == events[0];
      RunsExtend(Apply(s, events[0]), events[1..], t, e);
      assert (events + [e])[1..] == events[1..] + [e];
    }
  }

  // ---------------------------------------------------------------- one undisturbed admission

  /** The request fits: nothing requested is near a private path, and the only effective root near
      the requested one is its own binding, without a holder. */
  ghost predicate Admissible(s: State, public: Option<Target>, private: set<WirePath>) {
    && (public.Some? ==> ClearOf(public.value.root, private) && ClearOf(public.value.root, s.reserved))
    && (forall r :: Effective(s, r) ==> ClearOf(r, private))
    && (public.Some? ==> forall r :: Effective(s, r) && Overlap(public.value.root, r) ==>
                           r !in s.leases && r in s.roots && public.value == Target(r, s.roots[r].use))
  }

  /** One path leads to the other, or they are the same. */
  predicate Near(a: WirePath, b: WirePath) {
    a.components <= b.components || b.components <= a.components
  }

  /** The same in terms of the paths: the requested root is not near a requested or reserved private
      path; no leased or bound root is near a requested private path; and a leased or bound root near
      the requested one is the requested one, bound to the same owner and without a holder. */
  lemma AdmissibleExactly(s: State, public: Option<Target>, private: set<WirePath>)
    ensures Admissible(s, public, private) <==>
            && (public.Some? ==> forall p :: p in private || p in s.reserved ==> !Near(public.value.root, p))
            && (forall r, p :: (r in s.leases || (r in s.roots && s.roots[r].use != Legacy)) && p in private ==> !Near(r, p))
            && (public.Some? ==> forall r :: (r in s.leases || (r in s.roots && s.roots[r].use != Legacy)) && Near(public.value.root, r) ==>
                  r == public.value.root && r !in s.leases && r in s.roots && s.roots[r].use == public.value.use)
  {
    hide Overlaps, Near;
    forall a, b ensures Overlap(a, b) <==> Near(a, b) { OverlapIsNear(a, b); }
    if public.Some? {
      ClearOfExactly(public.value.root, private);
      ClearOfExactly(public.value.root, s.reserved);
    }
    forall r ensures ClearOf(r, private) <==> forall p :: p in private ==> !Near(r, p) { ClearOfExactly(r, private); }
    hide ClearOf;
    assert (forall r :: Effective(s, r) ==> ClearOf(r, private)) <==>
      forall r, p :: (r in s.leases || (r in s.roots && s.roots[r].use != Legacy)) && p in private ==> !Near(r, p) by {
      forall r ensures Effective(s, r) <==> r in s.leases || (r in s.roots && s.roots[r].use != Legacy) {}
      hide Effective;
    }
  }

  lemma OverlapIsNear(a: WirePath, b: WirePath)
    ensures Overlap(a, b) <==> Near(a, b)
  {
  }

  lemma ClearOfExactly(r: WirePath, private: set<WirePath>)
    ensures ClearOf(r, private) <==> forall p :: p in private ==> !Near(r, p)
  {
    forall p ensures Overlap(r, p) <==> Near(r, p) { OverlapIsNear(r, p); }
    hide Overlap, Near;
  }

  /** A released legacy root is nobody's: a request for it, or near it, is admitted if nothing else is in
      the way. A released managed root stays bound: its own binding is admitted again, and nothing else
      near it is. */
  lemma ReleaseFrees(s: State, r: WirePath, t: Target)
    requires Safe(s) && s.session.Idle? && r in s.leases
    ensures Enabled(s, Release(r)) && r in s.roots
    ensures var after := Apply(s, Release(r));
            && r !in after.leases && after.roots == s.roots && after.reserved == s.reserved
            && (s.roots[r].use == Legacy && ClearOf(t.root, s.reserved) && (forall e :: Effective(s, e) && e != r ==> !Overlap(t.root, e)) ==>
                  Admissible(after, Some(t), {}))
            && (s.roots[r].use.Managed? && Near(t.root, r) ==>
                  (Admissible(after, Some(t), {}) <==> t == Target(r, s.roots[r].use)))
  {
    var after := Apply(s, Release(r));
    assert forall e :: Effective(after, e) ==> Effective(s, e);
    OverlapIsNear(t.root, r);
    if s.roots[r].use.Managed? {
      assert Effective(after, r) && Effective(s, r);
      if t == Target(r, s.roots[r].use) {
        assert forall e :: Effective(after, e) && Overlap(t.root, e) ==> e == r;
      }
    }
  }

  /** A request near a leased root or a private path is refused. */
  lemma NearIsRefused(s: State, public: Option<Target>, private: set<WirePath>)
    ensures public.Some? && (exists r :: r in s.leases && Near(public.value.root, r)) ==> !Admissible(s, public, private)
    ensures public.Some? && (exists p :: p in s.reserved + private && Near(public.value.root, p)) ==> !Admissible(s, public, private)
  {
    AdmissibleExactly(s, public, private);
    hide Admissible, Near;
  }

  ghost predicate SameUses(s: State, t: State) {
    s.roots.Keys == t.roots.Keys && forall r :: r in s.roots ==> s.roots[r].use == t.roots[r].use
  }

  /** Everything but the recovered flags and markers is as it was, for the entries not yet read. */
  ghost predicate ScanSoFar(before: State, s: State, process: nat, public: Option<Target>, private: set<WirePath>) {
    && s.session.Busy? && s.session.phase.Scanning?
    && s.session == Busy(process, public, private, s.session.phase)
    && s.leases == before.leases && s.reserved == before.reserved && SameUses(before, s)
    && s.session.phase.todo <= s.roots.Keys
    && (forall r :: r in s.roots && r !in s.session.phase.todo ==>
          if Dormant(s, r) then r in s.session.phase.stale
          else r !in s.session.phase.stale && Compatible(s, r) && !s.roots[r].preparing)
    && s.session.phase.stale <= s.roots.Keys - s.session.phase.todo
  }

  lemma BeginScan(s: State, process: nat, public: Option<Target>, private: set<WirePath>)
    requires Safe(s) && Enabled(s, Begin(process, public, private))
    ensures ScanSoFar(s, Apply(s, Begin(process, public, private)), process, public, private)
  {
  }

  lemma RecoverScan(before: State, s: State, process: nat, public: Option<Target>, private: set<WirePath>, r: WirePath)
    requires Safe(s) && ScanSoFar(before, s, process, public, private)
    requires r in s.session.phase.todo && s.roots[r].preparing
    ensures Enabled(s, RecoverMarker(r)) && Enabled(Apply(s, RecoverMarker(r)), RecoverEntry(r))
    ensures var t := Apply(Apply(s, RecoverMarker(r)), RecoverEntry(r));
            && ScanSoFar(before, t, process, public, private) && t.session == s.session
            && !t.roots[r].preparing
  {
  }

  lemma PassScan(before: State, s: State, process: nat, public: Option<Target>, private: set<WirePath>, r: WirePath)
    requires Safe(s) && ScanSoFar(before, s, process, public, private)
    requires r in s.session.phase.todo && !s.roots[r].preparing
    ensures Enabled(s, Pass(r)) <==> Dormant(s, r) || Compatible(s, r)
    ensures Enabled(s, Pass(r)) ==> ScanSoFar(before, Apply(s, Pass(r)), process, public, private)
    ensures !Enabled(s, Pass(r)) ==> !Admissible(before, public, private)
  {
    if !Dormant(s, r) && !Compatible(s, r) {
      assert Effective(before, r);
    }
  }

  lemma PrivateBlocks(before: State, s: State, process: nat, public: Option<Target>, private: set<WirePath>, r: WirePath)
    requires ScanSoFar(before, s, process, public, private) && r in s.roots && !Dormant(s, r) && !ClearOf(r, private)
    ensures !Admissible(before, public, private)
  {
    assert Effective(before, r);
  }

  lemma ScanEnd(before: State, s: State, process: nat, public: Option<Target>, private: set<WirePath>)
    requires Safe(before) && Safe(s) && before.session.Idle? && ScanSoFar(before, s, process, public, private)
    requires s.session.phase.todo == {}
    ensures Admissible(before, public, private) && Enabled(s, TakeLease)
  {
    forall r | Effective(before, r)
      ensures ClearOf(r, private)
      ensures public.Some? && Overlap(public.value.root, r) ==>
                r !in s.leases && r in s.roots && public.value == Target(r, s.roots[r].use)
    {
      assert r in s.roots && !Dormant(s, r);
      assert Compatible(s, r);
    }
    if public.Some? {
      var root := public.value.root;
      assert Overlap(root, root);
      if root in s.markers { assert Effective(before, root); }
    }
  }

  ghost predicate LeasesAfter(s: State, t: State, process: nat, public: Option<Target>) {
    && (forall r :: r in t.leases <==> r in s.leases || (public.Some? && r == public.value.root))
    && (forall r :: r in t.leases ==> t.leases[r] == if public.Some? && r == public.value.root then process else s.leases[r])
  }

  /** The entries that had a holder or an owner stay, settled; the requested root is added. */
  ghost predicate RootsAfter(s: State, t: State, public: Option<Target>) {
    && (forall r :: r in t.roots <==> (r in s.roots && !Dormant(s, r)) || (public.Some? && r == public.value.root))
    && (forall r :: r in t.roots ==>
          t.roots[r] == if public.Some? && r == public.value.root then Entry(public.value.use, false)
                        else Entry(s.roots[r].use, false))
  }

  /** What an admission that goes through leaves behind. */
  ghost predicate Admitted(s: State, t: State, process: nat, public: Option<Target>, private: set<WirePath>) {
    && t.session.Idle? && t.reserved == s.reserved + private
    && LeasesAfter(s, t, process, public) && RootsAfter(s, t, public)
  }

  ghost predicate Ready(s: State, t: State, process: nat, public: Option<Target>, private: set<WirePath>) {
    && t.session == Busy(process, public, private, Reserved) && t.reserved == s.reserved + private
    && LeasesAfter(s, t, process, public)
    && (forall r :: r in t.roots <==> r in s.roots && !Dormant(s, r))
    && (forall r :: r in t.roots ==> t.roots[r] == Entry(s.roots[r].use, false))
  }

  lemma LeaseAndReserve(before: State, s: State, process: nat, public: Option<Target>, private: set<WirePath>)
    requires ScanSoFar(before, s, process, public, private) && s.session.phase.todo == {}
    requires Enabled(s, TakeLease)
    ensures Enabled(Apply(s, TakeLease), Reserve)
    ensures Ready(before, Apply(Apply(s, TakeLease), Reserve), process, public, private)
  {
    var t := Apply(Apply(s, TakeLease), Reserve);
    forall r ensures r in t.roots <==> r in before.roots && !Dormant(before, r) {}
  }

  /** Nothing is left to do for a purely private request, and the entry alone for a legacy root. */
  lemma FinishPlain(before: State, s: State, process: nat, public: Option<Target>, private: set<WirePath>)
    requires Ready(before, s, process, public, private)
    requires public.None? || public.value.use == Legacy
    ensures Enabled(s, Intend) && Admitted(before, Apply(s, Intend), process, public, private)
  {
    hide LeasesAfter;
    LeasesAlone(before, s, Apply(s, Intend), process, public);
  }

  lemma LeasesAlone(before: State, s: State, t: State, process: nat, public: Option<Target>)
    requires LeasesAfter(before, s, process, public) && s.leases == t.leases
    ensures LeasesAfter(before, t, process, public)
  {
  }

  /** A managed root is intended, marked and settled. */
  lemma FinishManaged(before: State, s: State, process: nat, public: Option<Target>, private: set<WirePath>)
    requires Safe(s) && Ready(before, s, process, public, private)
    requires public.Some? && public.value.use.Managed?
    ensures Enabled(s, Intend) && Enabled(Apply(s, Intend), Mark) && Enabled(Apply(Apply(s, Intend), Mark), Settle)
    ensures Admitted(before, Apply(Apply(Apply(s, Intend), Mark), Settle), process, public, private)
  {
    hide Separate, Shielded, Registered, MarkersMatch, AllChecked, ClearOf, Overlaps, LeasesAfter, RootsAfter;
    var a := Apply(s, Intend);
    assert a.session == Busy(process, public, private, Intended) && a.markers == s.markers;
    var b := Apply(a, Mark);
    var c := Apply(b, Settle);
    assert c.leases == s.leases && c.session.Idle? && c.reserved == s.reserved;
    LeasesAlone(before, s, c, process, public);
    assert c.roots == s.roots[public.value.root := Entry(public.value.use, false)];
    OwnEntry(before, s, c, process, public, private);
  }

  lemma OwnEntry(before: State, s: State, t: State, process: nat, public: Option<Target>, private: set<WirePath>)
    requires Ready(before, s, process, public, private) && public.Some?
    requires t.roots == s.roots[public.value.root := Entry(public.value.use, false)]
    ensures RootsAfter(before, t, public)
  {
  }

  class Registry {
    var state: State

    /** `admit_at_with_files` when nothing fails on the way: it goes through exactly when the
        request fits, it is a run of the protocol, and it drops the entries without a holder. A
        refused request leaves reservations, leases and bindings alone. */
    method Admit(process: nat, public: Option<Target>, private: set<WirePath>) returns (ok: bool, ghost events: seq<Event>)
      requires Safe(state) && state.session.Idle?
      modifies this
      ensures Safe(state) && state.session.Idle? && Runs(old(state), events, state)
      ensures ok <==> Admissible(old(state), public, private)
      ensures public.Some? && (exists r :: r in old(state).leases && Near(public.value.root, r)) ==> !ok
      ensures public.Some? && (exists p :: p in old(state).reserved + private && Near(public.value.root, p)) ==> !ok
      ensures ok ==> Admitted(old(state), state, process, public, private)
      ensures !ok ==> state.reserved == old(state.reserved) && state.leases == old(state.leases) && SameUses(old(state), state)
    {
      hide Safe, Runs, Enabled, Apply, Admissible, Admitted, Ready, Near, ScanSoFar;
      NearIsRefused(state, public, private);
      var begin := Begin(process, public, private);
      events := [];
      RunsStart(state);
      if !Enabled(state, begin) {
        NotBegun(state, process, public, private);
        return false, events;
      }
      BeginScan(state, process, public, private);
      events := Do(events, begin, old(state));
      ok, events := ReadCatalog(process, public, private, old(state), events);
      if !ok {
        return false, events;
      }
      LeaseAndReserve(old(state), state, process, public, private);
      events := Do(events, TakeLease, old(state));
      events := Do(events, Reserve, old(state));
      if public.Some? && public.value.use.Managed? {
        FinishManaged(old(state), state, process, public, private);
        events := Do(events, Intend, old(state));
        events := Do(events, Mark, old(state));
        events := Do(events, Settle, old(state));
      } else {
        FinishPlain(old(state), state, process, public, private);
        events := Do(events, Intend, old(state));
      }
      AdmittedIsIdle(old(state), state, process, public, private);
      return true, events;
    }

    /** The loop over the catalog: recovers bindings that were cut off, sets aside the entries without
        a holder, and stops at the first that is in the way. */
    method ReadCatalog(process: nat, public: Option<Target>, private: set<WirePath>, ghost start: State, ghost events: seq<Event>)
      returns (ok: bool, ghost more: seq<Event>)
      requires Safe(start) && start.session.Idle? && Safe(state) && Runs(start, events, state)
      requires ScanSoFar(start, state, process, public, private)
      modifies this
      ensures Safe(state) && Runs(start, more, state)
      ensures ok <==> Admissible(start, public, private)
      ensures ok ==> ScanSoFar(start, state, process, public, private) && state.session.phase.todo == {} && Enabled(state, TakeLease)
      ensures !ok ==> state.session.Idle? && state.reserved == start.reserved && state.leases == start.leases && SameUses(start, state)
    {
      hide Safe, Runs, Enabled, Apply, Admissible;
      more := events;
      while state.session.phase.todo != {}
        invariant Safe(state) && Runs(start, more, state)
        invariant ScanSoFar(start, state, process, public, private)
        decreases state.session.phase.todo
      {
        var r :| r in state.session.phase.todo;
        if !Dormant(state, r) && !ClearOf(r, private) {
          PrivateBlocks(start, state, process, public, private, r);
          AbortScan(start, state, process, public, private);
          more := Do(more, Abort, start);
          return false, more;
        }
        if state.roots[r].preparing {
          RecoverScan(start, state, process, public, private, r);
          more := Do(more, RecoverMarker(r), start);
          more := Do(more, RecoverEntry(r), start);
        }
        PassScan(start, state, process, public, private, r);
        if !Enabled(state, Pass(r)) {
          AbortScan(start, state, process, public, private);
          more := Do(more, Abort, start);
          return false, more;
        }
        PassShrinks(state, r);
        more := Do(more, Pass(r), start);
      }
      ScanEnd(start, state, process, public, private);
      ok := true;
    }

    method Do(ghost events: seq<Event>, e: Event, ghost start: State) returns (ghost more: seq<Event>)
      requires Safe(state) && Enabled(state, e) && Runs(start, events, state)
      modifies this
      ensures state == Apply(old(state), e) && Safe(state) && Runs(start, more, state)
    {
      StepIsSafe(state, e);
      RunsExtend(start, events, state, e);
      more := events + [e];
      state := Apply(state, e);
    }
  }

  lemma RunsStart(s: State)
    ensures Runs(s, [], s)
  {
  }

  lemma NotBegun(s: State, process: nat, public: Option<Target>, private: set<WirePath>)
    requires s.session.Idle? && !Enabled(s, Begin(process, public, private))
    ensures !Admissible(s, public, private)
  {
  }

  lemma PassShrinks(s: State, r: WirePath)
    requires Enabled(s, Pass(r))
    ensures Apply(s, Pass(r)).session.Busy? && Apply(s, Pass(r)).session.phase.Scanning?
    ensures Apply(s, Pass(r)).session.phase.todo < s.session.phase.todo
  {
  }

  lemma AbortScan(before: State, s: State, process: nat, public: Option<Target>, private: set<WirePath>)
    requires ScanSoFar(before, s, process, public, private)
    ensures Enabled(s, Abort)
    ensures var t := Apply(s, Abort);
            t.session.Idle? && t.reserved == before.reserved && t.leases == before.leases && SameUses(before, t)
  {
    assert Apply(s, Abort).leases == s.leases;
  }

  lemma AdmittedIsIdle(s: State, t: State, process: nat, public: Option<Target>, private: set<WirePath>)
    requires Admitted(s, t, process, public, private)
    ensures t.session.Idle?
  {
  }
}
