/** Pausing: operations take a read guard and then look at the flag; `pause` sets the flag and then
    takes the write guard. Every interleaving of these steps, with `pause` dropped half-way too. */
module Pause {

  type Op = nat

  /** What the holder of the lifecycle lock is doing. Waiting: the write guard has been asked for;
      Drained: it is held; Released: it has been dropped again, `pause` is about to return. */
  datatype Lifecycle = Free | PauseLocked | PauseStored | Waiting | Drained | Released | ResumeLocked | ResumeStored

  /** `guarded` operations hold a read guard but have not looked at the flag; `active` ones were
      admitted. */
  datatype State = State(paused: bool, guarded: set<Op>, active: set<Op>, lifecycle: Lifecycle)

  datatype Event =
    | TryRead(op: Op)
    | CheckFlag(op: Op)
    | Finish(op: Op)
    | LockPause
    | StorePaused
    | AskWrite
    | GetWrite
    | DropWrite
    | ReturnPause
    | DropPause
    | LockResume
    | StoreResumed
    | ReturnResume

  predicate Enabled(s: State, e: Event) {
    match e
    case TryRead(op) => op !in s.guarded + s.active && s.lifecycle != Waiting && s.lifecycle != Drained
    case CheckFlag(op) => op in s.guarded
    case Finish(op) => op in s.active
    case LockPause => s.lifecycle == Free
    case StorePaused => s.lifecycle == PauseLocked
    case AskWrite => s.lifecycle == PauseStored
    case GetWrite => s.lifecycle == Waiting && s.guarded == {} && s.active == {}
    case DropWrite => s.lifecycle == Drained
    case ReturnPause => s.lifecycle == Released
    case DropPause => s.lifecycle in {PauseLocked, PauseStored, Waiting}
    case LockResume => s.lifecycle == Free
    case StoreResumed => s.lifecycle == ResumeLocked
    case ReturnResume => s.lifecycle == ResumeStored
  }

  function Apply(s: State, e: Event): State
    requires Enabled(s, e)
  {
    match e
    case TryRead(op) => s.(guarded := s.guarded + {op})
    case CheckFlag(op) =>
      if s.paused then s.(guarded := s.guarded - {op})
      else s.(guarded := s.guarded - {op}, active := s.active + {op})
    case Finish(op) => s.(active := s.active - {op})
    case LockPause => s.(lifecycle := PauseLocked)
    case StorePaused => s.(paused := true, lifecycle := PauseStored)
    case AskWrite => s.(lifecycle := Waiting)
    case GetWrite => s.(lifecycle := Drained)
    case DropWrite => s.(lifecycle := Released)
    case ReturnPause => s.(lifecycle := Free)
    case DropPause => s.(lifecycle := Free)
    case LockResume => s.(lifecycle := ResumeLocked)
    case StoreResumed => s.(paused := false, lifecycle := ResumeStored)
    case ReturnResume => s.(lifecycle := Free)
  }

  ghost predicate Runs(s: State, events: seq<Event>, t: State)
    decreases |events|
  {
    if events == [] then t == s
    else Enabled(s, events[0]) && Runs(Apply(s, events[0]), events[1..], t)
  }

  const START := State(false, {}, {}, Free)

  /** The event lets an operation in. */
  predicate Admits(s: State, e: Event) {
    e.CheckFlag? && !s.paused
  }

  ghost predicate Inv(s: State) {
    && s.guarded !! s.active
    && (s.lifecycle in {PauseStored, Waiting, Drained, Released} ==> s.paused)
    && (s.lifecycle == Drained ==> s.guarded == {} && s.active == {})
    && (s.lifecycle == Released ==> s.active == {})
    && (s.lifecycle == ResumeStored ==> !s.paused)
  }

  ghost predicate Quiet(s: State) {
    s.paused && s.active == {}
  }

  lemma {:induction false} RunsKeepInv(s: State, events: seq<Event>, t: State)
    requires Inv(s) && Runs(s, events, t)
    ensures Inv(t)
    decreases |events|
  {
    if events != [] {
      RunsKeepInv(Apply(s, events[0]), events[1..], t);
    }
  }

  /** Nothing but a resume ends the quiet. */
  lemma {:induction false} QuietLasts(s: State, events: seq<Event>, t: State)
    requires Quiet(s) && Runs(s, events, t) && StoreResumed !in events
    ensures Quiet(t)
    decreases |events|
  {
    if events != [] {
      assert events[0] in events && StoreResumed !in events[1..];
      QuietLasts(Apply(s, events[0]), events[1..], t);
    }
  }

  lemma {:induction false} LastStep(s: State, events: seq<Event>, t: State) returns (m: State)
    requires events != [] && Runs(s, events, t)
    ensures Runs(s, events[..|events| - 1], m)
    ensures Enabled(m, events[|events| - 1]) && t == Apply(m, events[|events| - 1])
    decreases |events|
  {
    if |events| == 1 {
      m := s;
      assert events[1..] == [];
    } else {
      m := LastStep(Apply(s, events[0]), events[1..], t);
      assert events[1..][..|events| - 2] == events[..|events| - 1][1..];
      assert events[1..][|events| - 2] == events[|events| - 1];
    }
  }

  /** In every run: from the return of a `pause` to the next resume, no admitted operation is active,
      and the next step admits none. */
  lemma PauseDrains(before: seq<Event>, m: State, after: seq<Event>, t: State, next: Event)
    requires before != [] && before[|before| - 1] == ReturnPause && Runs(START, before, m)
    requires Runs(m, after, t) && StoreResumed !in after && Enabled(t, next)
    ensures t.active == {} && !Admits(t, next)
    ensures Apply(t, next).active == {}
  {
    var end := LastStep(START, before, m);
    RunsKeepInv(START, before[..|before| - 1], end);
    QuietLasts(m, after, t);
  }

  /** An operation becomes active exactly by looking at the flag while it is down, and stays until it
      finishes; one that finds the flag up lets go of its guard. */
  lemma AdmissionIsExact(s: State, e: Event, op: Op)
    requires Inv(s) && Enabled(s, e)
    ensures op in Apply(s, e).active <==> (op in s.active && e != Finish(op)) || (e == CheckFlag(op) && !s.paused)
    ensures e == CheckFlag(op) ==> op !in Apply(s, e).guarded
    ensures Admits(s, e) <==> exists x :: x in Apply(s, e).active && x !in s.active
  {
    if Admits(s, e) { assert e.op in Apply(s, e).active && e.op !in s.active; }
  }

  /** Undisturbed, a resume lets the next operation in. */
  lemma ResumeAdmits(s: State, op: Op)
    requires Inv(s) && s.lifecycle == Free && op !in s.guarded + s.active
    ensures exists t :: Runs(s, [LockResume, StoreResumed, ReturnResume, TryRead(op), CheckFlag(op)], t) && op in t.active
  {
    var e := [LockResume, StoreResumed, ReturnResume, TryRead(op), CheckFlag(op)];
    var s1 := Apply(s, e[0]);
    var s2 := Apply(s1, e[1]);
    var s3 := Apply(s2, e[2]);
    var s4 := Apply(s3, e[3]);
    var s5 := Apply(s4, e[4]);
    assert e[1..] == [e[1], e[2], e[3], e[4]] && e[1..][1..] == [e[2], e[3], e[4]];
    assert [e[2], e[3], e[4]][1..] == [e[3], e[4]] && [e[3], e[4]][1..] == [e[4]] && [e[4]][1..] == [];
    assert Runs(s5, [], s5);
    assert Runs(s4, [e[4]], s5);
    assert Runs(s3, [e[3], e[4]], s5);
    assert Runs(s2, [e[2], e[3], e[4]], s5);
    assert Runs(s1, e[1..], s5);
  }

  /** While the write guard is waited for, readers only leave: `pause` is not starved by newcomers. */
  lemma {:induction false} WaitingOnlyDrains(s: State, events: seq<Event>, t: State)
    requires Inv(s) && s.lifecycle == Waiting && Runs(s, events, t)
    requires GetWrite !in events && DropPause !in events
    ensures t.lifecycle == Waiting && t.active <= s.active && t.guarded <= s.guarded
    ensures |t.active| + |t.guarded| + |events| == |s.active| + |s.guarded|
    decreases |events|
  {
    if events != [] {
      assert events[0] in events && GetWrite !in events[1..] && DropPause !in events[1..];
      var next := Apply(s, events[0]);
      assert Inv(next) && next.lifecycle == Waiting;
      WaitingOnlyDrains(next, events[1..], t);
    }
  }
}
