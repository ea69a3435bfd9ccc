/** The wake listener: counting attempts inside a window and latching one wake event. */
module WakeLatch {
  import opened Wrappers

  /** Listener fields, with `accepted` the times of all counted attempts. */
  datatype State = State(
    threshold: nat, window: int,
    pending: bool, windowStart: Option<int>, windowCount: nat,
    closed: bool, failed: bool,
    queued: nat, sent: nat, channelClosed: bool,
    accepted: seq<int>)

  predicate ValidConfig(threshold: nat, window: int) {
    1 <= threshold <= 1000 && 10 <= window <= 60000
  }

  function New(threshold: nat, window: int): State {
    State(threshold, window, false, None, 0, false, false, 0, 0, false, [])
  }

  predicate Counting(l: State) {
    !l.closed && !l.failed && !l.pending
  }

  predicate Rolls(l: State, now: int) {
    l.windowStart.None? || now - l.windowStart.value >= l.window
  }

  /** Whether this attempt sends the wake event. */
  predicate Sends(l: State, now: int) {
    Counting(l) && (if Rolls(l, now) then 1 else l.windowCount + 1) >= l.threshold
  }

  /** One connection or datagram at time `now`. */
  function Record(l: State, now: int): State {
    if !Counting(l) then l
    else
      var start := if Rolls(l, now) then Some(now) else l.windowStart;
      var count := if Rolls(l, now) then 1 else l.windowCount + 1;
      var m := l.(windowStart := start, windowCount := count, accepted := l.accepted + [now]);
      if count < l.threshold then m
      else m.(pending := true, queued := m.queued + 1, sent := m.sent + 1)
  }

  function RecordAll(l: State, times: seq<int>): State
    decreases times
  {
    if times == [] then l else RecordAll(Record(l, times[0]), times[1..])
  }

  datatype Step =
    | Attempt(now: int)
    | ReadFailed
    | BeginClose                 // Close sets the closed flag
    | FinishClose                // all readers returned: the channel is closed
    | Consume                    // the controller takes the event

  function Apply(l: State, step: Step): State {
    match step
    case Attempt(now) => Record(l, now)
    case ReadFailed => if l.closed || l.failed then l else l.(failed := true)
    case BeginClose => l.(closed := true)
    case FinishClose => if l.closed then l.(channelClosed := true) else l
    case Consume => if l.queued > 0 then l.(queued := l.queued - 1) else l
  }

  function Run(l: State, steps: seq<Step>): State {
    if steps == [] then l else Apply(Run(l, steps[..|steps| - 1]), steps[|steps| - 1])
  }

  // ---------------------------------------------------------------- what every step keeps

  /** The last `windowCount` counted attempts are those of the current window. */
  ghost predicate WindowMatches(l: State) {
    && l.windowCount <= |l.accepted|
    && (l.windowStart.None? <==> l.windowCount == 0)
    && (l.windowStart.Some? ==> l.accepted[|l.accepted| - l.windowCount] == l.windowStart.value)
    && forall i :: |l.accepted| - l.windowCount <= i < |l.accepted| ==>
         l.accepted[i] - l.windowStart.value < l.window
  }

  ghost predicate Sound(l: State) {
    && l.threshold >= 1 && l.window >= 1
    && WindowMatches(l)
    && (if l.pending then l.windowCount == l.threshold else l.windowCount < l.threshold)
    && l.queued <= l.sent && l.sent == (if l.pending then 1 else 0)
    && (l.channelClosed ==> l.closed)
  }

  lemma RecordKeeps(l: State, now: int)
    requires Sound(l)
    ensures Sound(Record(l, now))
  {
    var m := Record(l, now);
    if Counting(l) {
      assert m.accepted[|l.accepted|] == now;
    }
  }

  lemma {:induction false} EveryRunIsSound(threshold: nat, window: int, steps: seq<Step>)
    requires ValidConfig(threshold, window)
    ensures Sound(Run(New(threshold, window), steps))
    ensures Run(New(threshold, window), steps).threshold == threshold
    ensures Run(New(threshold, window), steps).window == window
  {
    if steps != [] {
      EveryRunIsSound(threshold, window, steps[..|steps| - 1]);
      var l := Run(New(threshold, window), steps[..|steps| - 1]);
      match steps[|steps| - 1]
      case Attempt(now) => RecordKeeps(l, now);
      case _ =>
    }
  }

  /** The latch is only ever set by `threshold` attempts, none of them as late as `window`
      after the first of them. */
  lemma PendingNeedsThreshold(threshold: nat, window: int, steps: seq<Step>)
    requires ValidConfig(threshold, window) && Run(New(threshold, window), steps).pending
    ensures var times := Run(New(threshold, window), steps).accepted;
            && |times| >= threshold
            && forall i :: |times| - threshold <= i < |times| ==> times[i] - times[|times| - threshold] < window
  {
    EveryRunIsSound(threshold, window, steps);
  }

  /** At most one event is ever sent; when it is, the channel is empty and open, so the send
      made under the mutex neither blocks nor hits a closed channel. */
  lemma SendNeverBlocks(threshold: nat, window: int, steps: seq<Step>, now: int)
    requires ValidConfig(threshold, window)
    requires Sends(Run(New(threshold, window), steps), now)
    ensures var l := Run(New(threshold, window), steps);
            l.queued == 0 && !l.channelClosed && l.sent == 0 && Record(l, now).sent == 1
  {
    EveryRunIsSound(threshold, window, steps);
  }

  /** After the event was sent no step of any kind sends another. */
  lemma {:induction false} SentOnce(l: State, steps: seq<Step>)
    requires Sound(l) && l.pending
    ensures Run(l, steps).pending && Run(l, steps).sent == l.sent
  {
    if steps != [] {
      SentOnce(l, steps[..|steps| - 1]);
    }
  }

  /** Once closed, failed or latched, a listener counts and sends nothing more, whatever happens. */
  lemma {:induction false} EndedCountsNothing(l: State, steps: seq<Step>)
    requires l.closed || l.failed || l.pending
    ensures var m := Run(l, steps);
            && (m.closed || m.failed || m.pending)
            && m.accepted == l.accepted && m.sent == l.sent && m.windowCount == l.windowCount && m.queued <= l.queued
  {
    if steps != [] {
      EndedCountsNothing(l, steps[..|steps| - 1]);
    }
  }

  /** What the steps other than attempts do: a failure counts only while the listener is open, the channel is
      closed after the listener only, and the controller takes the one event there is. */
  lemma StepsAreExact(l: State)
    ensures Apply(l, ReadFailed) == l.(failed := l.failed || !l.closed)
    ensures Apply(l, BeginClose) == l.(closed := true)
    ensures Apply(l, FinishClose) == l.(channelClosed := l.channelClosed || l.closed)
    ensures Apply(l, Consume) == l.(queued := if l.queued == 0 then 0 else l.queued - 1)
    ensures l.closed ==> Apply(l, FinishClose).channelClosed
    ensures forall now :: Sends(l, now) <==> Apply(l, Attempt(now)).sent == l.sent + 1
  {
  }

  // ---------------------------------------------------------------- how many attempts suffice

  predicate NonDecreasing(times: seq<int>) {
    forall i, j :: 0 <= i <= j < |times| ==> times[i] <= times[j]
  }

  /** Attempts that all fall into the current window simply add up. */
  lemma {:induction false} InsideWindow(l: State, times: seq<int>)
    requires Sound(l) && Counting(l) && l.windowStart.Some?
    requires forall i :: 0 <= i < |times| ==> times[i] - l.windowStart.value < l.window
    requires l.windowCount + |times| >= l.threshold
    ensures RecordAll(l, times).pending
    decreases times
  {
    var m := Record(l, times[0]);
    RecordKeeps(l, times[0]);
    if m.pending {
      LatchedStays(m, times[1..]);
    } else {
      InsideWindow(m, times[1..]);
    }
  }

  lemma {:induction false} LatchedStays(l: State, times: seq<int>)
    requires l.pending
    ensures RecordAll(l, times) == l
  {
    if times != [] {
      LatchedStays(l, times[1..]);
    }
  }

  lemma {:induction false} AttemptsSufficeFrom(l: State, times: seq<int>)
    requires Sound(l) && Counting(l) && l.windowStart.Some?
    requires times != [] && NonDecreasing(times) && times[|times| - 1] - times[0] < l.window
    requires |times| >= 2 * l.threshold - 1 - l.windowCount
    ensures RecordAll(l, times).pending
    decreases times
  {
    var now, rest := times[0], times[1..];
    var m := Record(l, now);
    RecordKeeps(l, now);
    if m.pending {
      LatchedStays(m, rest);
    } else if Rolls(l, now) {
      InsideWindow(m, rest);
    } else {
      AttemptsSufficeFrom(m, rest);
    }
  }

  /** On an open, healthy listener any max(threshold, 2*threshold-2) attempts spanning less
      than the window latch it, whatever happened before. */
  lemma AttemptsSuffice(l: State, times: seq<int>)
    requires Sound(l) && Counting(l)
    requires |times| >= l.threshold && |times| >= 2 * l.threshold - 2
    requires NonDecreasing(times) && times[|times| - 1] - times[0] < l.window
    ensures RecordAll(l, times).pending
  {
    if l.windowStart.Some? {
      AttemptsSufficeFrom(l, times);
    } else {
      var m := Record(l, times[0]);
      RecordKeeps(l, times[0]);
      if m.pending {
        LatchedStays(m, times[1..]);
      } else {
        InsideWindow(m, times[1..]);
      }
    }
  }

  function Repeat(now: int, n: nat): (times: seq<int>)
    ensures |times| == n && forall i :: 0 <= i < n ==> times[i] == now
  {
    seq(n, _ => now)
  }

  lemma {:induction false} RepeatCounts(l: State, now: int, n: nat)
    requires Counting(l) && l.windowStart.Some? && now - l.windowStart.value < l.window
    requires l.windowCount + n < l.threshold
    ensures var m := RecordAll(l, Repeat(now, n));
            && Counting(m) && m.windowStart == l.windowStart && m.windowCount == l.windowCount + n
            && m.threshold == l.threshold && m.window == l.window
    decreases n
  {
    if n != 0 {
      assert Repeat(now, n)[1..] == Repeat(now, n - 1);
      RepeatCounts(Record(l, now), now, n - 1);
    }
  }

  lemma {:induction false} RecordAllAppend(l: State, a: seq<int>, b: seq<int>)
    ensures RecordAll(l, a + b) == RecordAll(RecordAll(l, a), b)
    decreases a
  {
    if a == [] {
      assert a + b == b;
    } else {
      assert (a + b)[1..] == a[1..] + b;
      RecordAllAppend(Record(l, a[0]), a[1..], b);
    }
  }

  /** The bound is sharp: for every threshold above two, one attempt fewer can leave an open,
      healthy listener asleep although the attempts span a single time unit. */
  lemma BoundIsSharp(threshold: nat, window: int) returns (l: State, times: seq<int>)
    requires ValidConfig(threshold, window) && threshold >= 3
    ensures Sound(l) && Counting(l) && l.threshold == threshold && l.window == window
    ensures |times| == 2 * threshold - 3 && NonDecreasing(times) && times[|times| - 1] - times[0] == 1
    ensures Counting(RecordAll(l, times))
  {
    l := Record(New(threshold, window), 0);
    RecordKeeps(New(threshold, window), 0);
    var early, late := Repeat(window - 1, threshold - 2), Repeat(window, threshold - 1);
    times := early + late;
    RecordAllAppend(l, early, late);
    RepeatCounts(l, window - 1, threshold - 2);
    var m := RecordAll(l, early);
    assert late[1..] == Repeat(window, threshold - 2);
    RepeatCounts(Record(m, window), window, threshold - 2);
  }

  // ---------------------------------------------------------------- the listener object

  class Listener {
    const threshold: nat
    const window: int
    var pending: bool
    var windowStart: Option<int>
    var windowCount: nat
    var closed: bool
    var failed: bool
    var events: seq<int>
    var channelClosed: bool
    ghost var sent: nat
    ghost var accepted: seq<int>

    ghost function View(): State
      reads this
    {
      State(threshold, window, pending, windowStart, windowCount, closed, failed, |events|, sent, channelClosed, accepted)
    }

    constructor (threshold: nat, window: int)
      ensures View() == New(threshold, window)
    {
      this.threshold, this.window := threshold, window;
      pending, windowStart, windowCount := false, None, 0;
      closed, failed, events, channelClosed := false, false, [], false;
      sent, accepted := 0, [];
    }

    /** Counts one attempt; the result tells the socket reader to stop. */
    method Count(now: int) returns (stop: bool)
      requires Sound(View())
      modifies this
      ensures View() == Record(old(View()), now) && Sound(View())
      ensures stop <==> !Counting(View())
    {
      ghost var before := View();
      RecordKeeps(before, now);
      if closed || failed || pending {
        return true;
      }
      if windowStart.None? || now - windowStart.value >= window {
        windowStart, windowCount := Some(now), 0;
      }
      windowCount := windowCount + 1;
      accepted := accepted + [now];
      if windowCount < threshold {
        return false;
      }
      pending := true;
      // The channel has room for one event and is still open here.
      assert events == [] && !channelClosed;
      events, sent := events + [now], sent + 1;
      stop := true;
    }

    method Fail()
      modifies this
      ensures View() == Apply(old(View()), ReadFailed)
    {
      if !closed && !failed {
        failed := true;
      }
    }

    /** Refuses further attempts, then closes the channel once every reader has returned. */
    method Close()
      modifies this
      ensures View() == Apply(Apply(old(View()), BeginClose), FinishClose)
    {
      closed := true;
      channelClosed := true;
    }
  }
}
