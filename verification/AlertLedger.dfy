/** The alert ledger: episodes, revisions, occurrences and the history of events. */
module AlertLedger {

  datatype Key = Key(stack: string, problem: string, target: string)

  datatype Alert = Alert(
    id: string, revision: nat, episode: nat, count: nat, firstAt: int, latestAt: int,
    acknowledged: bool, resolved: bool, canResolve: bool, summary: string, stackName: string)

  datatype Kind = Failure | Recovery | Acknowledged | Resolved

  datatype Event = Event(alert: string, episode: nat, kind: Kind)

  /** `id` is the random id to use if the change opens a new alert; `valid` is the outcome of
      the checks on its texts and time. */
  datatype Change = Change(kind: Kind, key: Key, occurrence: string, expected: nat, at: int,
                           summary: string, stackName: string, canResolve: bool, id: string, valid: bool)

  datatype Ledger = Ledger(alerts: map<Key, Alert>, occurrences: set<(string, string)>, events: seq<Event>)

  datatype Result = Done(ledger: Ledger) | Conflict | Invalid | NotFound | Unavailable

  const EMPTY: Ledger := Ledger(map[], {}, [])

  // ---------------------------------------------------------------- transactions

  predicate WellFormed(c: Change) {
    c.valid && (c.kind == Failure || (c.kind == Recovery && c.expected >= 1))
  }

  function Max(a: int, b: int): int {
    if a >= b then a else b
  }

  /** The alert after one more failure: a resolved one starts its next episode. */
  function Failed(a: Alert, c: Change): Alert {
    var b := if a.resolved
             then a.(episode := a.episode + 1, count := 0, firstAt := c.at, acknowledged := false, resolved := false)
             else a;
    b.(count := b.count + 1, summary := c.summary, canResolve := c.canResolve,
       stackName := if c.stackName != "" then c.stackName else b.stackName,
       latestAt := Max(b.latestAt, c.at), revision := b.revision + 1)
  }

  function Recovered(a: Alert, c: Change): Alert {
    a.(resolved := true, latestAt := Max(a.latestAt, c.at), revision := a.revision + 1)
  }

  function Opened(c: Change): Alert {
    Alert(c.id, 0, 1, 0, c.at, c.at, false, false, false, "", "")
  }

  function Write(l: Ledger, c: Change, a: Alert): Ledger {
    Ledger(l.alerts[c.key := a], l.occurrences + {(a.id, c.occurrence)}, l.events + [Event(a.id, a.episode, c.kind)])
  }

  function ApplyOne(l: Ledger, c: Change): Result {
    if !WellFormed(c) then Invalid
    else if c.key !in l.alerts then
      if c.kind == Recovery then Done(l) else Done(Write(l, c, Failed(Opened(c), c)))
    else
      var a := l.alerts[c.key];
      if (a.id, c.occurrence) in l.occurrences then Done(l)
      else if c.kind == Failure then Done(Write(l, c, Failed(a, c)))
      else if a.revision != c.expected then Conflict
      else if a.resolved then Done(l)
      else Done(Write(l, c, Recovered(a, c)))
  }

  /** A batch: the first change that fails undoes the whole transaction. */
  function ApplyAll(l: Ledger, changes: seq<Change>): Result
    decreases changes
  {
    if changes == [] then Done(l)
    else
      var first := ApplyOne(l, changes[0]);
      if first.Done? then ApplyAll(first.ledger, changes[1..]) else first
  }

  /** Leaves out recoveries whose alert is gone or has moved on. */
  predicate IsCurrent(l: Ledger, c: Change) {
    c.kind == Recovery ==> c.key in l.alerts && l.alerts[c.key].revision == c.expected
  }

  function Current(l: Ledger, changes: seq<Change>): seq<Change> {
    if changes == [] then []
    else (if IsCurrent(l, changes[0]) then [changes[0]] else []) + Current(l, changes[1..])
  }

  lemma CurrentFrom(l: Ledger, changes: seq<Change>, i: nat)
    requires i < |changes|
    ensures Current(l, changes[i..]) ==
            if IsCurrent(l, changes[i]) then [changes[i]] + Current(l, changes[i + 1..]) else Current(l, changes[i + 1..])
  {
    assert changes[i..][1..] == changes[i + 1..];
  }

  /** An operator acknowledges or resolves the alert stored under `key`. */
  function Mutated(l: Ledger, key: Key, expected: nat, resolve: bool): Result {
    if key !in l.alerts then NotFound
    else
      var a := l.alerts[key];
      if a.revision != expected then Conflict
      else if resolve && !a.canResolve then Unavailable
      else if (if resolve then a.resolved else a.acknowledged) then Conflict
      else
        var b := (if resolve then a.(resolved := true) else a.(acknowledged := true)).(revision := a.revision + 1);
        Done(l.(alerts := l.alerts[key := b],
                events := l.events + [Event(a.id, a.episode, if resolve then Resolved else Acknowledged)]))
  }

  datatype Step =
    | Batch(changes: seq<Change>)
    | Operator(key: Key, expected: nat, resolve: bool)

  function Apply(l: Ledger, step: Step): Ledger {
    var r := match step
      case Batch(changes) => ApplyAll(l, changes)
      case Operator(key, expected, resolve) => Mutated(l, key, expected, resolve);
    if r.Done? then r.ledger else l
  }

  // ---------------------------------------------------------------- conservation

  function Count(events: seq<Event>, id: string): nat {
    if events == [] then 0
    else Count(events[..|events| - 1], id) + if events[|events| - 1].alert == id then 1 else 0
  }

  function Failures(events: seq<Event>, id: string, episode: nat): nat {
    if events == [] then 0
    else
      var e := events[|events| - 1];
      Failures(events[..|events| - 1], id, episode)
      + if e.alert == id && e.episode == episode && e.kind == Failure then 1 else 0
  }

  function Reports(events: seq<Event>, id: string): nat {
    if events == [] then 0
    else
      var e := events[|events| - 1];
      Reports(events[..|events| - 1], id) + if e.alert == id && (e.kind == Failure || e.kind == Recovery) then 1 else 0
  }

  function Seen(l: Ledger, id: string): set<(string, string)> {
    set o | o in l.occurrences && o.0 == id
  }

  /** Books of one alert: its revision counts its events, its count the failures of its episode,
      its occurrences the reports behind them, and its times are in order. */
  ghost predicate Accounted(l: Ledger, a: Alert) {
    && a.revision == Count(l.events, a.id)
    && a.count == Failures(l.events, a.id, a.episode)
    && |Seen(l, a.id)| == Reports(l.events, a.id)
    && a.firstAt <= a.latestAt
    && forall i :: 0 <= i < |l.events| && l.events[i].alert == a.id ==> l.events[i].episode <= a.episode
  }

  predicate IdKnown(l: Ledger, id: string) {
    exists k :: k in l.alerts && l.alerts[k].id == id
  }

  /** A stored alert has an event, and a resolved one has two. */
  predicate Aged(a: Alert) {
    a.revision >= 1 && (a.resolved ==> a.revision >= 2)
  }

  ghost predicate Balanced(l: Ledger) {
    && (forall k :: k in l.alerts ==> Accounted(l, l.alerts[k]) && Aged(l.alerts[k]))
    && (forall j, k :: j in l.alerts && k in l.alerts && l.alerts[j].id == l.alerts[k].id ==> j == k)
    && (forall i :: 0 <= i < |l.events| ==> IdKnown(l, l.events[i].alert))
    && (forall o :: o in l.occurrences ==> IdKnown(l, o.0))
  }

  lemma {:induction false} NoEvents(events: seq<Event>, id: string, episode: nat)
    requires forall i :: 0 <= i < |events| ==> events[i].alert != id
    ensures Count(events, id) == 0 && Failures(events, id, episode) == 0 && Reports(events, id) == 0
  {
    if events != [] {
      NoEvents(events[..|events| - 1], id, episode);
    }
  }

  lemma {:induction false} NoFailures(events: seq<Event>, id: string, episode: nat)
    requires forall i :: 0 <= i < |events| && events[i].alert == id ==> events[i].episode < episode
    ensures Failures(events, id, episode) == 0
  {
    if events != [] {
      NoFailures(events[..|events| - 1], id, episode);
    }
  }

  /** One event more for another alert changes nothing for this one. */
  lemma OtherAccounted(l: Ledger, m: Ledger, a: Alert, e: Event)
    requires Accounted(l, a) && m.events == l.events + [e] && e.alert != a.id
    requires Seen(m, a.id) == Seen(l, a.id)
    ensures Accounted(m, a)
  {
    assert m.events[..|l.events|] == l.events;
  }

  lemma OwnAccounted(l: Ledger, m: Ledger, a: Alert, b: Alert, e: Event)
    requires Accounted(l, a) && a.id == b.id && m.events == l.events + [e]
    requires e.alert == a.id && e.episode == b.episode && b.revision == a.revision + 1
    requires b.episode == a.episode || (b.episode == a.episode + 1 && e.kind == Failure)
    requires b.count == (if b.episode == a.episode then a.count else 0) + (if e.kind == Failure then 1 else 0)
    requires b.firstAt <= b.latestAt
    requires |Seen(m, a.id)| == |Seen(l, a.id)| + (if e.kind == Failure || e.kind == Recovery then 1 else 0)
    ensures Accounted(m, b)
  {
    assert m.events[..|l.events|] == l.events;
    if b.episode != a.episode {
      NoFailures(l.events, a.id, b.episode);
    }
  }

  /** Replacing the row of one alert, and adding its event, keeps all books. */
  lemma RowBalanced(l: Ledger, m: Ledger, key: Key, b: Alert, e: Event)
    requires Balanced(l) && m.alerts == l.alerts[key := b] && m.events == l.events + [e] && e.alert == b.id
    requires Accounted(m, b) && Aged(b)
    requires forall k :: k in l.alerts && k != key ==> l.alerts[k].id != b.id
    requires key in l.alerts ==> l.alerts[key].id == b.id
    requires forall o :: o in m.occurrences ==> o in l.occurrences || o.0 == b.id
    requires l.occurrences <= m.occurrences
    ensures Balanced(m)
  {
    forall k | k in m.alerts ensures Accounted(m, m.alerts[k]) && Aged(m.alerts[k]) {
      if k != key {
        assert Seen(m, l.alerts[k].id) == Seen(l, l.alerts[k].id);
        OtherAccounted(l, m, l.alerts[k], e);
      }
    }
    assert m.alerts[key].id == b.id;
    forall id | id == b.id || IdKnown(l, id) ensures IdKnown(m, id) {
      if id != b.id {
        var k :| k in l.alerts && l.alerts[k].id == id;
        assert m.alerts[k].id == id;
      }
    }
  }

  lemma SeenGrows(l: Ledger, m: Ledger, id: string, occurrence: string)
    requires m.occurrences == l.occurrences + {(id, occurrence)} && (id, occurrence) !in l.occurrences
    ensures |Seen(m, id)| == |Seen(l, id)| + 1
  {
    assert Seen(m, id) == Seen(l, id) + {(id, occurrence)};
  }

  predicate FreshId(l: Ledger, c: Change) {
    c.key !in l.alerts ==> !IdKnown(l, c.id)
  }

  lemma ApplyOneBalanced(l: Ledger, c: Change)
    requires Balanced(l) && FreshId(l, c) && ApplyOne(l, c).Done?
    ensures Balanced(ApplyOne(l, c).ledger)
  {
    var m := ApplyOne(l, c).ledger;
    if m != l {
      var a := if c.key in l.alerts then l.alerts[c.key] else Opened(c);
      var b := m.alerts[c.key];
      if c.key !in l.alerts {
        FreshAccounted(l, c);
      }
      SeenGrows(l, m, a.id, c.occurrence);
      OwnAccounted(l, m, a, b, Event(b.id, b.episode, c.kind));
      RowBalanced(l, m, c.key, b, Event(b.id, b.episode, c.kind));
    }
  }

  lemma FreshAccounted(l: Ledger, c: Change)
    requires Balanced(l) && !IdKnown(l, c.id)
    ensures Accounted(l, Opened(c))
    ensures forall k :: k in l.alerts ==> l.alerts[k].id != c.id
    ensures forall o :: o in l.occurrences ==> o.0 != c.id
  {
    NoEvents(l.events, c.id, 1);
    assert Seen(l, c.id) == {};
  }

  lemma MutateBalanced(l: Ledger, key: Key, expected: nat, resolve: bool)
    requires Balanced(l) && Mutated(l, key, expected, resolve).Done?
    ensures Balanced(Mutated(l, key, expected, resolve).ledger)
  {
    var m := Mutated(l, key, expected, resolve).ledger;
    var a, b, e := l.alerts[key], m.alerts[key], m.events[|l.events|];
    assert Seen(m, a.id) == Seen(l, a.id);
    OwnAccounted(l, m, a, b, e);
    RowBalanced(l, m, key, b, e);
  }

  /** New alerts of a batch get ids nobody has. */
  ghost predicate FreshIds(l: Ledger, changes: seq<Change>)
    decreases changes
  {
    changes != [] ==>
      && FreshId(l, changes[0])
      && (ApplyOne(l, changes[0]).Done? ==> FreshIds(ApplyOne(l, changes[0]).ledger, changes[1..]))
  }

  lemma {:induction false} BatchBalanced(l: Ledger, changes: seq<Change>)
    requires Balanced(l) && FreshIds(l, changes)
    ensures ApplyAll(l, changes).Done? ==> Balanced(ApplyAll(l, changes).ledger)
    decreases changes
  {
    if changes != [] && ApplyOne(l, changes[0]).Done? {
      ApplyOneBalanced(l, changes[0]);
      BatchBalanced(ApplyOne(l, changes[0]).ledger, changes[1..]);
    }
  }

  ghost predicate Allowed(l: Ledger, step: Step) {
    step.Batch? ==> FreshIds(l, step.changes)
  }

  function Run(steps: seq<Step>): Ledger {
    if steps == [] then EMPTY else Apply(Run(steps[..|steps| - 1]), steps[|steps| - 1])
  }

  ghost predicate AllAllowed(steps: seq<Step>) {
    forall i :: 0 <= i < |steps| ==> Allowed(Run(steps[..i]), steps[i])
  }

  /** Some run ends in the ledger. */
  ghost predicate Reachable(l: Ledger) {
    exists steps :: AllAllowed(steps) && Run(steps) == l
  }

  /** The books balance after every sequence of batches and operator actions. */
  lemma {:induction false} EveryRunBalances(steps: seq<Step>)
    requires AllAllowed(steps)
    ensures Balanced(Run(steps))
  {
    if steps != [] {
      var n := |steps| - 1;
      var init := steps[..n];
      forall i | 0 <= i < n ensures Allowed(Run(init[..i]), init[i]) {
        assert init[..i] == steps[..i];
      }
      EveryRunBalances(init);
      match steps[n]
      case Batch(changes) => BatchBalanced(Run(init), changes);
      case Operator(key, expected, resolve) =>
        if Mutated(Run(init), key, expected, resolve).Done? {
          MutateBalanced(Run(init), key, expected, resolve);
        }
    }
  }

  lemma ReachableBalances(l: Ledger)
    requires Reachable(l)
    ensures Balanced(l)
  {
    var steps :| AllAllowed(steps) && Run(steps) == l;
    EveryRunBalances(steps);
  }

  lemma EmptyIsReachable()
    ensures Reachable(EMPTY)
  {
    assert AllAllowed([]) && Run([]) == EMPTY;
  }

  /** One more change that goes through, as a batch of its own. */
  lemma OneMoreChange(l: Ledger, c: Change)
    requires Reachable(l) && FreshId(l, c) && ApplyOne(l, c).Done?
    ensures Reachable(ApplyOne(l, c).ledger)
  {
    var steps :| AllAllowed(steps) && Run(steps) == l;
    var more := steps + [Batch([c])];
    assert more[..|steps|] == steps;
    forall i | 0 <= i < |more| ensures Allowed(Run(more[..i]), more[i]) {
      if i < |steps| {
        assert more[..i] == steps[..i];
      }
    }
    assert [c][1..] == [];
    assert ApplyAll(l, [c]) == ApplyOne(l, c);
    assert Run(more) == ApplyOne(l, c).ledger;
  }

  // ---------------------------------------------------------------- what one change does

  /** The alert has taken this report before. */
  predicate Recorded(l: Ledger, c: Change) {
    c.key in l.alerts && (l.alerts[c.key].id, c.occurrence) in l.occurrences
  }

  /** One event and one report more, and nothing but this alert is written. */
  predicate Written(l: Ledger, m: Ledger, c: Change) {
    && c.key in m.alerts && m.alerts == l.alerts[c.key := m.alerts[c.key]]
    && m.occurrences == l.occurrences + {(m.alerts[c.key].id, c.occurrence)}
    && m.events == l.events + [Event(m.alerts[c.key].id, m.alerts[c.key].episode, c.kind)]
  }

  /** A valid failure that is not recorded yet opens its alert, or starts the next episode of a resolved one, or is
      one more of the current one; what it says replaces what was said. */
  lemma FailureIsExact(l: Ledger, c: Change)
    requires c.kind == Failure && c.valid && !Recorded(l, c)
    ensures var r := ApplyOne(l, c);
            && r.Done? && Written(l, r.ledger, c)
            && var b := r.ledger.alerts[c.key];
            && b.summary == c.summary && b.canResolve == c.canResolve && !b.resolved
            && (c.key !in l.alerts ==>
                  b.id == c.id && b.revision == 1 && b.episode == 1 && b.count == 1 && b.firstAt == c.at && b.latestAt == c.at
                  && !b.acknowledged && b.stackName == c.stackName)
            && (c.key in l.alerts ==>
                  var a := l.alerts[c.key];
                  && b.id == a.id && b.revision == a.revision + 1 && b.latestAt == (if c.at > a.latestAt then c.at else a.latestAt)
                  && b.stackName == (if c.stackName == "" then a.stackName else c.stackName)
                  && (if a.resolved then b.episode == a.episode + 1 && b.count == 1 && b.firstAt == c.at && !b.acknowledged
                      else b.episode == a.episode && b.count == a.count + 1 && b.firstAt == a.firstAt && b.acknowledged == a.acknowledged))
  {
  }

  /** A valid recovery that is not recorded yet resolves an open alert at the expected revision, conflicts with
      another revision, and has nothing to do without an alert or with a resolved one. */
  lemma RecoveryIsExact(l: Ledger, c: Change)
    requires c.kind == Recovery && c.valid && c.expected >= 1 && !Recorded(l, c)
    ensures var r := ApplyOne(l, c);
            if c.key !in l.alerts then r == Done(l)
            else if l.alerts[c.key].revision != c.expected then r == Conflict
            else if l.alerts[c.key].resolved then r == Done(l)
            else && r.Done? && Written(l, r.ledger, c)
                 && var a, b := l.alerts[c.key], r.ledger.alerts[c.key];
                 && b.resolved && b.revision == a.revision + 1 && b.latestAt == (if c.at > a.latestAt then c.at else a.latestAt)
                 && b.(resolved := false, revision := 0, latestAt := 0) == a.(resolved := false, revision := 0, latestAt := 0)
  {
  }

  /** A change that is recorded does nothing, and one that is not valid is refused. */
  lemma OtherwiseNothing(l: Ledger, c: Change)
    requires c.kind == Failure || c.kind == Recovery
    ensures !(c.valid && (c.kind == Recovery ==> c.expected >= 1)) ==> ApplyOne(l, c) == Invalid
    ensures c.valid && (c.kind == Recovery ==> c.expected >= 1) && Recorded(l, c) ==> ApplyOne(l, c) == Done(l)
  {
  }

  /** An operator who has seen the latest revision acknowledges an alert that is not acknowledged, or resolves
      one that is open and may be resolved by hand; the one leaves the other as it was. */
  lemma OperatorIsExact(l: Ledger, key: Key, expected: nat, resolve: bool)
    ensures var r := Mutated(l, key, expected, resolve);
            && (r.Done? <==> && key in l.alerts && l.alerts[key].revision == expected
                             && if resolve then l.alerts[key].canResolve && !l.alerts[key].resolved else !l.alerts[key].acknowledged)
            && (r.Done? ==>
                  var a := l.alerts[key];
                  && r.ledger.occurrences == l.occurrences && key in r.ledger.alerts
                  && r.ledger.alerts == l.alerts[key := r.ledger.alerts[key]]
                  && r.ledger.events == l.events + [Event(a.id, a.episode, if resolve then Resolved else Acknowledged)]
                  && r.ledger.alerts[key].revision == expected + 1
                  && r.ledger.alerts[key].resolved == (a.resolved || resolve) && r.ledger.alerts[key].acknowledged == (a.acknowledged || !resolve)
                  && r.ledger.alerts[key].(resolved := false, acknowledged := false, revision := 0) == a.(resolved := false, acknowledged := false, revision := 0))
  {
  }

  /** What filtering keeps: everything but recoveries whose alert is gone or has moved on, in its order. */
  lemma {:induction false} CurrentIsExact(l: Ledger, changes: seq<Change>, more: seq<Change>, c: Change)
    ensures Current(l, changes + more) == Current(l, changes) + Current(l, more)
    ensures Current(l, [c]) ==
            if c.kind == Recovery && (c.key !in l.alerts || l.alerts[c.key].revision != c.expected) then [] else [c]
    decreases changes
  {
    assert [c][1..] == [];
    if changes == [] {
      assert changes + more == more;
    } else {
      CurrentIsExact(l, changes[1..], more, c);
      assert (changes + more)[1..] == changes[1..] + more;
    }
  }

  // ---------------------------------------------------------------- the store

  class AlertStore {
    var ledger: Ledger

    constructor ()
      ensures ledger == EMPTY
    {
      ledger := EMPTY;
    }

    /** The batch loop; nothing is committed unless every change went through. */
    method Apply(changes: seq<Change>) returns (r: Result)
      modifies this
      ensures r == ApplyAll(old(ledger), changes)
      ensures ledger == if r.Done? then r.ledger else old(ledger)
    {
      var tx := ledger;
      for i := 0 to |changes|
        invariant ledger == old(ledger)
        invariant ApplyAll(ledger, changes) == ApplyAll(tx, changes[i..])
      {
        var c := changes[i];
        assert changes[i..][1..] == changes[i + 1..];
        if !WellFormed(c) {
          return Invalid;
        }
        if c.key !in tx.alerts {
          if c.kind == Failure {
            tx := Write(tx, c, Failed(Opened(c), c));
          }
        } else {
          var a := tx.alerts[c.key];
          if (a.id, c.occurrence) !in tx.occurrences {
            if c.kind == Failure {
              tx := Write(tx, c, Failed(a, c));
            } else {
              if a.revision != c.expected {
                return Conflict;
              }
              if !a.resolved {
                tx := Write(tx, c, Recovered(a, c));
              }
            }
          }
        }
      }
      ledger := tx;
      r := Done(tx);
    }

    method Mutate(key: Key, expected: nat, resolve: bool) returns (r: Result)
      modifies this
      ensures r == Mutated(old(ledger), key, expected, resolve)
      ensures ledger == if r.Done? then r.ledger else old(ledger)
    {
      if key !in ledger.alerts {
        return NotFound;
      }
      var a := ledger.alerts[key];
      if a.revision != expected {
        return Conflict;
      }
      var kind := Acknowledged;
      if resolve {
        if !a.canResolve {
          return Unavailable;
        }
        if a.resolved {
          return Conflict;
        }
        a := a.(resolved := true);
        kind := Resolved;
      } else {
        if a.acknowledged {
          return Conflict;
        }
        a := a.(acknowledged := true);
      }
      a := a.(revision := a.revision + 1);
      ledger := ledger.(alerts := ledger.alerts[key := a], events := ledger.events + [Event(a.id, a.episode, kind)]);
      r := Done(ledger);
    }

    method CurrentChanges(input: seq<Change>) returns (changes: seq<Change>)
      ensures changes == Current(ledger, input)
    {
      changes := [];
      for i := 0 to |input|
        invariant Current(ledger, input) == changes + Current(ledger, input[i..])
      {
        CurrentFrom(ledger, input, i);
        var c := input[i];
        if c.kind == Recovery && (c.key !in ledger.alerts || ledger.alerts[c.key].revision != c.expected) {
          continue;
        }
        changes := changes + [c];
      }
    }
  }
}
