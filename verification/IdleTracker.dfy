/** The idle tracker that decides when an on-demand group may go to sleep. */
module IdleTracker {
  import opened Wrappers

  const SECOND: int := 1000

  /** Observations older than this are ignored. */
  const STALE_AFTER: int := 10 * SECOND

  datatype Phase = Running | Sleeping | Starting | Stopping | Unknown

  datatype Counters = Counters(received: nat, sent: nat)

  datatype Group = Group(revision: int, phase: Phase, enabled: bool, held: bool, paused: bool,
                         minRuntimeSeconds: int, idleSeconds: int)

  datatype Sample = Sample(epoch: string, phase: Phase, observedAt: Option<int>, counters: map<string, Counters>)

  datatype Decision = Nothing | WakeUp | Sleep | Pause(reason: string) | Unavailable(reason: string)

  datatype State = State(epoch: string, revision: int, phase: Phase, runningSince: Option<int>,
                         lastActivity: int, counters: Option<map<string, Counters>>)

  const ZERO: State := State("", 0, Unknown, None, 0, None)

  // ---------------------------------------------------------------- one evaluation

  function Invalidate(t: State, now: int): State {
    t.(lastActivity := now, counters := None)
  }

  predicate Resets(t: State, g: Group) {
    t.revision != g.revision || t.phase != g.phase || t.runningSince.None?
  }

  function Rebased(t: State, g: Group, s: Sample, now: int): State {
    if Resets(t, g) then State(s.epoch, g.revision, g.phase, Some(now), now, None) else t
  }

  predicate Stale(s: Sample, now: int) {
    s.observedAt.None? || now - s.observedAt.value > STALE_AFTER || s.observedAt.value > now
  }

  /** The sample passes every check that precedes the look at the counters' values. */
  predicate Comparable(t: State, g: Group, s: Sample, now: int) {
    && g.enabled && !g.held && !g.paused
    && !Stale(s, now)
    && g.phase == Running && s.phase == Running
    && s.counters != map[]
    && t.epoch == s.epoch
    && t.counters.Some?
    && s.counters.Keys == t.counters.value.Keys
  }

  function Evaluate(t0: State, g: Group, s: Sample, pending: bool, now: int): (State, Decision) {
    var t := Rebased(t0, g, s, now);
    if !g.enabled || g.held || g.paused then (Invalidate(t, now), Nothing)
    else if Stale(s, now) then (Invalidate(t, now), Unavailable("stale"))
    else if g.phase == Starting || g.phase == Stopping then (t, Nothing)
    else if s.phase != g.phase || g.phase == Unknown then (t, Pause("phase"))
    else if g.phase == Sleeping then (t, if pending then WakeUp else Nothing)
    else if s.counters == map[] then (Invalidate(t, now), Unavailable("counters"))
    else if t.epoch != s.epoch then (t, Pause("epoch"))
    else if t.counters.None? then (t.(lastActivity := now, counters := Some(s.counters)), Nothing)
    else if s.counters.Keys != t.counters.value.Keys then (t, Pause("membership"))
    else
      var u := t.(lastActivity := if s.counters != t.counters.value then now else t.lastActivity,
                  counters := Some(s.counters));
      (u, if now - u.runningSince.value >= g.minRuntimeSeconds * SECOND
             && now - u.lastActivity >= g.idleSeconds * SECOND then Sleep else Nothing)
  }

  // ---------------------------------------------------------------- runs

  datatype Event =
    | Evaluated(g: Group, s: Sample, pending: bool, now: int)
    | Invalidated(now: int)

  function Next(t: State, e: Event): State {
    match e
    case Evaluated(g, s, pending, now) => Evaluate(t, g, s, pending, now).0
    case Invalidated(now) => Invalidate(t, now)
  }

  function Run(events: seq<Event>): State {
    if events == [] then ZERO else Next(Run(events[..|events| - 1]), events[|events| - 1])
  }

  /** The state in which the `i`-th event found the tracker. */
  function Before(events: seq<Event>, i: nat): State
    requires i <= |events|
  {
    Run(events[..i])
  }

  predicate Ordered(events: seq<Event>) {
    forall i, j :: 0 <= i <= j < |events| ==> events[i].now <= events[j].now
  }

  /** The event reached the comparison of counter values. */
  predicate Compared(t: State, e: Event) {
    e.Evaluated? && Comparable(Rebased(t, e.g, e.s, e.now), e.g, e.s, e.now)
  }

  /** The event counts as activity: an invalidation, a fresh baseline or a changed counter. */
  predicate Active(t: State, e: Event) {
    match e
    case Invalidated(_) => true
    case Evaluated(g, s, pending, now) =>
      var u := Rebased(t, g, s, now);
      || Resets(t, g)
      || !g.enabled || g.held || g.paused || Stale(s, now)
      || (g.phase == Running && s.phase == Running &&
          (s.counters == map[] || (t.epoch == s.epoch && t.counters.None?)))
      || (Comparable(u, g, s, now) && s.counters != u.counters.value)
  }

  /** Index of the evaluation that last restarted the runtime clock. */
  function LastReset(events: seq<Event>): int {
    if events == [] then -1
    else
      var n := |events| - 1;
      if events[n].Evaluated? && Resets(Run(events[..n]), events[n].g) then n else LastReset(events[..n])
  }

  // ---------------------------------------------------------------- invariants of every run

  /** Nothing after the last activity was activity, and all compared samples since are the current one. */
  ghost predicate QuietSince(events: seq<Event>, t: State) {
    forall i: nat :: i < |events| ==> Quiet(events, i, t)
  }

  /** Since the last reset revision and phase are constant, and compared samples carry its epoch. */
  ghost predicate ConstantSince(events: seq<Event>, t: State) {
    t.runningSince.Some? ==>
      var k := LastReset(events);
      && 0 <= k < |events| && events[k].Evaluated?
      && events[k].now == t.runningSince.value && events[k].s.epoch == t.epoch
      && forall i: nat :: k <= i < |events| ==> Constant(events, i, t)
  }

  /** Activity is what moves the time of last activity; a comparison leaves its sample as the current one. */
  lemma ActivityAfter(t: State, e: Event)
    ensures var u := Next(t, e);
            && u.lastActivity == (if Active(t, e) then e.now else t.lastActivity)
            && (Compared(t, e) ==> u.counters == Some(e.s.counters))
            && (!Active(t, e) ==> u.counters == t.counters || Compared(t, e))
            && (!Active(t, e) && Compared(t, e) ==> u.counters == t.counters)
  {
  }

  ghost predicate Quiet(events: seq<Event>, i: nat, t: State)
    requires i < |events|
  {
    events[i].now > t.lastActivity ==>
      && !Active(Before(events, i), events[i])
      && (Compared(Before(events, i), events[i]) ==> t.counters == Some(events[i].s.counters))
  }

  lemma QuietStep(events: seq<Event>, e: Event)
    requires Ordered(events + [e]) && QuietSince(events, Run(events))
    ensures QuietSince(events + [e], Run(events + [e]))
  {
    var all, n := events + [e], |events|;
    var t := Run(events);
    assert all[..n] == events && all[n] == e;
    ActivityAfter(t, e);
    forall i: nat | i < |all| ensures Quiet(all, i, Run(all)) {
      if i < n {
        assert all[..i] == events[..i];
        assert all[i].now <= all[n].now;
        assert Quiet(events, i, t);
      }
    }
  }

  /** An evaluation keeps the runtime clock, unless it restarts it. */
  lemma ClockAfter(t: State, g: Group, s: Sample, pending: bool, now: int)
    ensures var u := Evaluate(t, g, s, pending, now).0;
            && u.revision == g.revision && u.phase == g.phase
            && (if Resets(t, g) then u.runningSince == Some(now) && u.epoch == s.epoch
                else u.runningSince == t.runningSince && u.epoch == t.epoch)
    ensures Comparable(Rebased(t, g, s, now), g, s, now) ==> s.epoch == Rebased(t, g, s, now).epoch
    ensures Rebased(t, g, s, now).epoch == Evaluate(t, g, s, pending, now).0.epoch
  {
  }

  /** What `ConstantSince` says about one event. */
  ghost predicate Constant(events: seq<Event>, i: nat, t: State)
    requires i < |events|
  {
    events[i].Evaluated? ==>
      && events[i].g.revision == t.revision && events[i].g.phase == t.phase
      && (Compared(Before(events, i), events[i]) ==> events[i].s.epoch == t.epoch)
  }

  lemma ConstantStep(events: seq<Event>, e: Event)
    requires ConstantSince(events, Run(events))
    ensures ConstantSince(events + [e], Run(events + [e]))
  {
    var all, n := events + [e], |events|;
    var t := Run(events);
    assert all[..n] == events && all[n] == e;
    if e.Evaluated? {
      ClockAfter(t, e.g, e.s, e.pending, e.now);
    }
    var u := Run(all);
    if u.runningSince.Some? {
      var k := LastReset(all);
      forall i: nat | k <= i < |all| ensures Constant(all, i, u) {
        if i < n {
          assert all[..i] == events[..i];
          assert Constant(events, i, t);
        }
      }
    }
  }

  lemma {:induction false} EveryRun(events: seq<Event>)
    requires Ordered(events)
    ensures QuietSince(events, Run(events)) && ConstantSince(events, Run(events))
  {
    if events != [] {
      var init, last := events[..|events| - 1], events[|events| - 1];
      assert events == init + [last];
      EveryRun(init);
      QuietStep(init, last);
      ConstantStep(init, last);
    }
  }

  ghost predicate SleepsAtEnd(events: seq<Event>) {
    && events != []
    && var e := events[|events| - 1];
    e.Evaluated? && Evaluate(Before(events, |events| - 1), e.g, e.s, e.pending, e.now).1 == Sleep
  }

  /** What a sleep decision says about the tracker it leaves behind. */
  lemma SleepFacts(t: State, g: Group, s: Sample, pending: bool, now: int)
    requires Evaluate(t, g, s, pending, now).1 == Sleep
    ensures var u := Evaluate(t, g, s, pending, now).0;
            && u.runningSince.Some? && u.runningSince.value <= now - g.minRuntimeSeconds * SECOND
            && u.lastActivity <= now - g.idleSeconds * SECOND
            && u.revision == g.revision && u.phase == g.phase == Running
            && u.epoch == s.epoch && u.counters == Some(s.counters)
  {
  }

  /** A sleep decision is only taken at the end of an idle stretch: in the last `idleSeconds`
      nothing counted as activity and every compared counter sample is the deciding one. */
  lemma SleepMeansIdle(events: seq<Event>)
    requires Ordered(events) && SleepsAtEnd(events)
    ensures var last := events[|events| - 1];
            forall i :: 0 <= i < |events| && events[i].now > last.now - last.g.idleSeconds * SECOND ==>
              && !Active(Before(events, i), events[i])
              && (Compared(Before(events, i), events[i]) ==> events[i].s.counters == last.s.counters)
  {
    EveryRun(events);
    var last := events[|events| - 1];
    SleepFacts(Before(events, |events| - 1), last.g, last.s, last.pending, last.now);
    forall i | 0 <= i < |events| && events[i].now > last.now - last.g.idleSeconds * SECOND
      ensures !Active(Before(events, i), events[i])
      ensures Compared(Before(events, i), events[i]) ==> events[i].s.counters == last.s.counters
    {
      assert Quiet(events, i, Run(events));
    }
  }

  /** It is also only taken on a group seen running, at one revision, for `minRuntimeSeconds`:
      an evaluation that early fixed the epoch, and no evaluation since saw another revision or phase. */
  lemma SleepMeansSettled(events: seq<Event>)
    requires Ordered(events) && SleepsAtEnd(events)
    ensures var last, k := events[|events| - 1], LastReset(events);
            && 0 <= k < |events| && events[k].Evaluated?
            && events[k].now <= last.now - last.g.minRuntimeSeconds * SECOND
            && events[k].s.epoch == last.s.epoch
            && forall i :: k <= i < |events| && events[i].Evaluated? ==>
                 && events[i].g.revision == last.g.revision && events[i].g.phase == Running
                 && (Compared(Before(events, i), events[i]) ==> events[i].s.epoch == last.s.epoch)
  {
    EveryRun(events);
    var last := events[|events| - 1];
    SleepFacts(Before(events, |events| - 1), last.g, last.s, last.pending, last.now);
    SettledFrom(events, Run(events));
  }

  lemma SettledFrom(events: seq<Event>, t: State)
    requires ConstantSince(events, t) && t.runningSince.Some?
    ensures var k := LastReset(events);
            && 0 <= k < |events| && events[k].Evaluated?
            && events[k].now == t.runningSince.value && events[k].s.epoch == t.epoch
            && forall i :: k <= i < |events| && events[i].Evaluated? ==>
                 && events[i].g.revision == t.revision && events[i].g.phase == t.phase
                 && (Compared(Before(events, i), events[i]) ==> events[i].s.epoch == t.epoch)
  {
    var k := LastReset(events);
    forall i | k <= i < |events| && events[i].Evaluated?
      ensures events[i].g.revision == t.revision && events[i].g.phase == t.phase
      ensures Compared(Before(events, i), events[i]) ==> events[i].s.epoch == t.epoch
    {
      assert Constant(events, i, t);
    }
  }

  // ---------------------------------------------------------------- the epoch in between

  /** The evaluation gets as far as the comparison of epochs. */
  predicate Inspects(e: Event) {
    && e.Evaluated?
    && e.g.enabled && !e.g.held && !e.g.paused && !Stale(e.s, e.now)
    && e.g.phase == Running && e.s.phase == Running && e.s.counters != map[]
  }

  /** The answer given to the `i`-th event. */
  function Answer(events: seq<Event>, i: nat): Decision
    requires i < |events| && events[i].Evaluated?
  {
    Evaluate(Before(events, i), events[i].g, events[i].s, events[i].pending, events[i].now).1
  }

  /** Between the last reset and the end no evaluation restarts the clock. */
  lemma {:induction false} NoResetSince(events: seq<Event>, i: nat)
    requires LastReset(events) < i < |events| && events[i].Evaluated?
    ensures !Resets(Before(events, i), events[i].g)
    decreases |events|
  {
    var n := |events| - 1;
    if i < n {
      NoResetSince(events[..n], i);
      assert events[..n][..i] == events[..i];
    }
  }

  /** After its reset the tracker keeps the epoch that the reset saw. */
  lemma {:induction false} EpochKept(events: seq<Event>, i: nat)
    requires 0 <= LastReset(events) < i <= |events| && events[LastReset(events)].Evaluated?
    ensures Before(events, i).epoch == events[LastReset(events)].s.epoch
    decreases i
  {
    var k := LastReset(events);
    assert events[..i][..i - 1] == events[..i - 1];
    var e := events[i - 1];
    if i - 1 == k {
      ResetsAt(events);
      ClockAfter(Before(events, k), e.g, e.s, e.pending, e.now);
    } else {
      EpochKept(events, i - 1);
      if e.Evaluated? {
        NoResetSince(events, i - 1);
        ClockAfter(Before(events, i - 1), e.g, e.s, e.pending, e.now);
      }
    }
  }

  lemma {:induction false} ResetsAt(events: seq<Event>)
    requires LastReset(events) >= 0
    ensures LastReset(events) < |events| && events[LastReset(events)].Evaluated?
    ensures Resets(Before(events, LastReset(events)), events[LastReset(events)].g)
  {
    var n := |events| - 1;
    if !(events[n].Evaluated? && Resets(Before(events, n), events[n].g)) {
      ResetsAt(events[..n]);
      assert events[..n][..LastReset(events)] == events[..LastReset(events)];
    }
  }

  /** An evaluation that gets to the comparison pauses for the epoch exactly when its own is another. */
  lemma PausesForEpoch(events: seq<Event>, i: nat)
    requires 0 <= LastReset(events) <= i < |events| && Inspects(events[i])
    ensures LastReset(events) < |events| && events[LastReset(events)].Evaluated?
    ensures Answer(events, i) == Pause("epoch") <==> events[i].s.epoch != events[LastReset(events)].s.epoch
  {
    ResetsAt(events);
    if LastReset(events) < i {
      NoResetSince(events, i);
      EpochKept(events, i);
    }
  }

  /** Exactly when the epoch was the same throughout: at a sleep decision, every evaluation since the last
      reset that got to the comparison of epochs carried the deciding one, if and only if none of them was
      answered with a pause for it. */
  lemma EpochSettledExactly(events: seq<Event>)
    requires Ordered(events) && SleepsAtEnd(events)
    ensures var last, k := events[|events| - 1], LastReset(events);
            && 0 <= k
            && ((forall i :: k <= i < |events| && Inspects(events[i]) ==> events[i].s.epoch == last.s.epoch) <==>
                (forall i :: k <= i < |events| && Inspects(events[i]) ==> Answer(events, i) != Pause("epoch")))
  {
    SleepMeansSettled(events);
    forall i | LastReset(events) <= i < |events| && Inspects(events[i])
      ensures Answer(events, i) == Pause("epoch") <==> events[i].s.epoch != events[|events| - 1].s.epoch
    {
      PausesForEpoch(events, i);
    }
  }

  /** The condition is needed: a tracker whose pause is ignored still decides to sleep, although a current
      observation half-way through showed another runtime. */
  lemma EpochMayDifferBetween() returns (events: seq<Event>)
    ensures Ordered(events) && SleepsAtEnd(events) && LastReset(events) == 0
    ensures exists i :: 0 < i < |events| - 1 && Inspects(events[i]) && Answer(events, i) == Pause("epoch")
                        && events[i].s.epoch != events[|events| - 1].s.epoch
  {
    var g := Group(1, Running, true, false, false, 60, 60);
    var counters := map["c" := Counters(0, 0)];
    var first := Evaluated(g, Sample("A", Running, Some(0), counters), false, 0);
    var other := Evaluated(g, Sample("B", Running, Some(30 * SECOND), counters), false, 30 * SECOND);
    var again := Evaluated(g, Sample("A", Running, Some(60 * SECOND), counters), false, 60 * SECOND);
    events := [first, other, again];
    var one, two := State("A", 1, Running, Some(0), 0, Some(counters)), State("A", 1, Running, Some(0), 0, Some(counters));
    assert events[..0] == [] && events[..1] == [first] && events[..2] == [first, other];
    assert [first][..0] == [] && [first, other][..1] == [first];
    assert counters != map[] by { assert "c" in counters; }
    assert Evaluate(ZERO, g, first.s, false, 0).0 == one;
    assert Evaluate(one, g, other.s, false, 30 * SECOND) == (two, Pause("epoch"));
    assert Evaluate(two, g, again.s, false, 60 * SECOND).1 == Sleep;
    assert Run([first]) == one && Run([first, other]) == two;
    assert LastReset([first]) == 0 && LastReset([first, other]) == 0;
    assert Inspects(events[1]);
  }

  // ---------------------------------------------------------------- when the tracker answers what

  /** The automatic transitions of the group are in force. */
  predicate InForce(g: Group) {
    g.enabled && !g.held && !g.paused
  }

  /** The sample was taken in the last ten seconds. */
  predicate Current(s: Sample, now: int) {
    s.observedAt.Some? && 0 <= now - s.observedAt.value <= 10_000
  }

  /** What does not depend on the past: a group is woken exactly if it is in force, seen asleep and an attempt is
      pending; a look that is not current, or shows no counters, is unavailable; and a pause for the phase means
      that the runtime is not in the phase the group is recorded in. */
  lemma AnswersExactly(t: State, g: Group, s: Sample, pending: bool, now: int)
    ensures var answer := Evaluate(t, g, s, pending, now).1;
            && (answer == WakeUp <==> InForce(g) && Current(s, now) && pending && g.phase == Sleeping && s.phase == Sleeping)
            && (answer == Unavailable("stale") <==> InForce(g) && !Current(s, now))
            && (answer == Unavailable("counters") <==>
                  InForce(g) && Current(s, now) && g.phase == Running && s.phase == Running && s.counters == map[])
            && (answer == Pause("phase") <==>
                  InForce(g) && Current(s, now) && g.phase != Starting && g.phase != Stopping && (s.phase != g.phase || g.phase == Unknown))
            && (!InForce(g) ==> answer == Nothing)
  {
  }

  /** A pause for the membership: the same run of the containers shows other containers than the last look. */
  lemma MembershipExactly(t: State, g: Group, s: Sample, pending: bool, now: int)
    ensures Evaluate(t, g, s, pending, now).1 == Pause("membership") <==>
            && Inspects(Evaluated(g, s, pending, now)) && !Resets(t, g) && s.epoch == t.epoch
            && t.counters.Some? && t.counters.value.Keys != s.counters.Keys
  {
  }

  /** Some event was activity at this time. */
  ghost predicate ActiveAt(events: seq<Event>, at: int) {
    exists i: nat :: ActiveEvent(events, i) && events[i].now == at
  }

  predicate ActiveEvent(events: seq<Event>, i: nat) {
    i < |events| && Active(Before(events, i), events[i])
  }

  /** Once the clock runs, the time of last activity is that of an event that was activity. */
  lemma {:induction false} ActivityIsAnEvent(events: seq<Event>)
    requires Run(events).runningSince.Some?
    ensures ActiveAt(events, Run(events).lastActivity)
  {
    var n := |events| - 1;
    var init, e := events[..n], events[n];
    ActivityAfter(Run(init), e);
    if Active(Run(init), e) {
      assert ActiveEvent(events, n);
    } else {
      ActivityIsAnEvent(init);
      var i: nat :| ActiveEvent(init, i) && init[i].now == Run(init).lastActivity;
      assert events[..i] == init[..i];
      assert ActiveEvent(events, i);
    }
  }

  /** The runtime clock was last restarted long enough ago. */
  predicate Seasoned(events: seq<Event>)
    requires events != [] && events[|events| - 1].Evaluated?
  {
    var last, k := events[|events| - 1], LastReset(events);
    0 <= k < |events| && last.now - events[k].now >= last.g.minRuntimeSeconds * SECOND
  }

  /** Nothing in the idle window was activity. */
  predicate Idle(events: seq<Event>)
    requires events != [] && events[|events| - 1].Evaluated?
  {
    var last := events[|events| - 1];
    forall i :: 0 <= i < |events| && events[i].now > last.now - last.g.idleSeconds * SECOND ==> !ActiveEvent(events, i)
  }

  lemma SleepByClocks(t: State, g: Group, s: Sample, pending: bool, now: int)
    requires Comparable(Rebased(t, g, s, now), g, s, now)
    ensures var (u, answer) := Evaluate(t, g, s, pending, now);
            && u.runningSince.Some?
            && (answer == Sleep <==> now - u.runningSince.value >= g.minRuntimeSeconds * SECOND && now - u.lastActivity >= g.idleSeconds * SECOND)
  {
  }

  lemma SleepNeedsComparison(t: State, g: Group, s: Sample, pending: bool, now: int)
    requires Evaluate(t, g, s, pending, now).1 == Sleep
    ensures Comparable(Rebased(t, g, s, now), g, s, now)
  {
  }

  /** Both ways, over every run: an evaluation that gets to compare counters is answered with sleep if and only
      if the clock was not restarted within the minimum runtime and nothing was activity within the idle time.
      No other evaluation is. */
  lemma SleepsExactly(events: seq<Event>)
    requires Ordered(events) && events != [] && events[|events| - 1].Evaluated?
    ensures SleepsAtEnd(events) <==> Compared(Before(events, |events| - 1), events[|events| - 1]) && Seasoned(events) && Idle(events)
  {
    var n := |events| - 1;
    var last, t := events[n], Run(events);
    if SleepsAtEnd(events) {
      SleepMeansIdle(events);
      SleepMeansSettled(events);
      SleepNeedsComparison(Before(events, n), last.g, last.s, last.pending, last.now);
    }
    if Compared(Before(events, n), last) && Seasoned(events) && Idle(events) {
      SleepByClocks(Before(events, n), last.g, last.s, last.pending, last.now);
      EveryRun(events);
      ActivityIsAnEvent(events);
      var i: nat :| ActiveEvent(events, i) && events[i].now == t.lastActivity;
    }
  }

  /** The event tells the tracker nothing it could compare with. */
  predicate Blind(e: Event) {
    e.Invalidated? || !InForce(e.g) || !Current(e.s, e.now)
  }

  /** After it the counters are forgotten: the next look is a new baseline, so it is never answered with sleep,
      nor held against the containers seen before. */
  lemma ForgettingStartsOver(t: State, e: Event, g: Group, s: Sample, pending: bool, now: int)
    requires Blind(e)
    ensures Next(t, e).lastActivity == e.now
    ensures var answer := Evaluate(Next(t, e), g, s, pending, now).1; answer != Sleep && answer != Pause("membership")
  {
  }

  // ---------------------------------------------------------------- the tracker object

  class Tracker {
    var epoch: string
    var revision: int
    var phase: Phase
    var runningSince: Option<int>
    var lastActivity: int
    var counters: Option<map<string, Counters>>

    ghost function View(): State
      reads this
    {
      State(epoch, revision, phase, runningSince, lastActivity, counters)
    }

    constructor ()
      ensures View() == ZERO
    {
      epoch, revision, phase, runningSince, lastActivity, counters := "", 0, Unknown, None, 0, None;
    }

    method Forget(now: int)
      modifies this
      ensures View() == Invalidate(old(View()), now)
    {
      lastActivity := now;
      counters := None;
    }

    method Decide(g: Group, s: Sample, pending: bool, now: int) returns (d: Decision)
      modifies this
      ensures (View(), d) == Evaluate(old(View()), g, s, pending, now)
    {
      if revision != g.revision || phase != g.phase || runningSince.None? {
        revision, phase, runningSince, epoch := g.revision, g.phase, Some(now), s.epoch;
        Forget(now);
      }
      if !g.enabled || g.held || g.paused {
        Forget(now);
        return Nothing;
      }
      if s.observedAt.None? || now - s.observedAt.value > STALE_AFTER || s.observedAt.value > now {
        Forget(now);
        return Unavailable("stale");
      }
      if g.phase == Starting || g.phase == Stopping {
        return Nothing;
      }
      if s.phase != g.phase || g.phase == Unknown {
        return Pause("phase");
      }
      if g.phase == Sleeping {
        return if pending then WakeUp else Nothing;
      }
      if s.counters == map[] {
        Forget(now);
        return Unavailable("counters");
      }
      if epoch != s.epoch {
        return Pause("epoch");
      }
      if counters.None? {
        lastActivity, counters := now, Some(s.counters);
        return Nothing;
      }
      var same, changed := Differs(counters.value, s.counters);
      if !same {
        return Pause("membership");
      }
      if changed {
        lastActivity := now;
      }
      counters := Some(s.counters);
      if now - runningSince.value >= g.minRuntimeSeconds * SECOND && now - lastActivity >= g.idleSeconds * SECOND {
        return Sleep;
      }
      return Nothing;
    }
  }

  /** The comparison loop: same containers, and any counter moved. */
  method Differs(previous: map<string, Counters>, current: map<string, Counters>) returns (same: bool, changed: bool)
    ensures same <==> current.Keys == previous.Keys
    ensures same ==> (changed <==> current != previous)
  {
    changed := false;
    if |current| != |previous| {
      return false, changed;
    }
    var rest := current.Keys;
    while rest != {}
      invariant rest <= current.Keys
      invariant forall id :: id in current.Keys - rest ==> id in previous
      invariant changed <==> exists id :: id in current.Keys - rest && current[id] != previous[id]
      decreases |rest|
    {
      var id :| id in rest;
      if id !in previous {
        return false, changed;
      }
      if previous[id] != current[id] {
        changed := true;
      }
      rest := rest - {id};
    }
    EqualSize(current.Keys, previous.Keys);
    same := true;
  }

  lemma EqualSize(a: set<string>, b: set<string>)
    requires a <= b && |a| == |b|
    ensures a == b
  {
    assert |b| == |a| + |b - a| by {
      assert b == a + (b - a);
    }
  }
}
