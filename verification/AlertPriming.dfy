/** Runs that lead to a ledger made for a batch: chosen reports taken, one alert at a chosen revision. */
module AlertPriming {
  import opened AlertLedger
  import opened AlertBatches

  /** A ledger that has taken every report of the batch, except those of `key` in `pending`. The alert of
      `key` stands at `revision`. */
  ghost predicate Primed(l: Ledger, changes: seq<Change>, key: Key, revision: nat, resolved: bool, pending: set<string>) {
    && key in l.alerts && l.alerts[key].revision == revision && l.alerts[key].resolved == resolved
    && forall c :: c in changes ==> c.key in l.alerts && (Recorded(l, c) <==> Wanted(c, key, pending))
  }

  predicate Wanted(c: Change, key: Key, pending: set<string>) {
    c.key != key || c.occurrence !in pending
  }

  /** On the way there: what is wanted of the first `n` changes is recorded, and nothing that is pending. */
  ghost predicate Priming(l: Ledger, changes: seq<Change>, n: nat, key: Key, pending: set<string>)
    requires n <= |changes|
  {
    && Reachable(l)
    && (forall x :: 0 <= x < n && Wanted(changes[x], key, pending) ==> Recorded(l, changes[x]))
    && (key in l.alerts ==>
          && !l.alerts[key].resolved
          && forall o :: o in pending ==> (l.alerts[key].id, o) !in l.occurrences)
  }

  lemma {:induction false} Longer(s: set<string>) returns (t: string)
    ensures forall x :: x in s ==> |x| < |t|
    decreases |s|
  {
    if s == {} {
      t := "";
    } else {
      var x :| x in s;
      var u := Longer(s - {x});
      t := if |x| < |u| then u else x + "+";
    }
  }

  /** An id that no alert has, and a report that no alert has taken and that is not pending. */
  lemma Unused(l: Ledger, pending: set<string>) returns (id: string, occurrence: string)
    ensures !IdKnown(l, id) && occurrence !in pending && forall o :: o in l.occurrences ==> o.1 != occurrence
  {
    id := Longer(set k | k in l.alerts :: l.alerts[k].id);
    occurrence := Longer(pending + set o | o in l.occurrences :: o.1);
    forall o | o in l.occurrences ensures o.1 != occurrence {
      assert o.1 in set o | o in l.occurrences :: o.1;
    }
  }

  /** A failure report for `key` with the given occurrence. */
  function Fault(key: Key, occurrence: string, id: string): Change {
    Change(Failure, key, occurrence, 0, 0, "", "", false, id, true)
  }

  /** One more failure that is not pending: nothing recorded is lost, and the alert moves by one revision
      at most, by exactly one if the report is new. */
  lemma AddFault(l: Ledger, changes: seq<Change>, n: nat, key: Key, pending: set<string>, c: Change) returns (m: Ledger)
    requires n <= |changes| && Priming(l, changes, n, key, pending)
    requires WellFormed(c) && c.kind == Failure && FreshId(l, c) && Wanted(c, key, pending)
    ensures Priming(m, changes, n, key, pending) && Recorded(m, c) && l.alerts.Keys <= m.alerts.Keys
    ensures c.key != key ==> (key in m.alerts <==> key in l.alerts) && (key in l.alerts ==> m.alerts[key] == l.alerts[key])
    ensures c.key == key ==>
              m.alerts[key].revision <= (if key in l.alerts then l.alerts[key].revision else 0) + 1
              && (!Recorded(l, c) ==> m.alerts[key].revision == (if key in l.alerts then l.alerts[key].revision else 0) + 1)
  {
    m := ApplyOne(l, c).ledger;
    OneMoreChange(l, c);
    ReachableBalances(l);
    ReachableBalances(m);
    forall x | 0 <= x < n && Wanted(changes[x], key, pending) ensures Recorded(m, changes[x]) {
      RecordedStays(l, changes[x], c);
    }
    if key in m.alerts {
      forall o | o in pending ensures (m.alerts[key].id, o) !in m.occurrences {
        PendingStays(l, m, c, key, pending, o);
      }
    }
  }

  lemma PendingStays(l: Ledger, m: Ledger, c: Change, key: Key, pending: set<string>, o: string)
    requires Balanced(l) && Balanced(m) && FreshId(l, c) && ApplyOne(l, c) == Done(m) && Wanted(c, key, pending) && o in pending
    requires key in m.alerts && (key in l.alerts ==> (l.alerts[key].id, o) !in l.occurrences)
    ensures (m.alerts[key].id, o) !in m.occurrences
  {
    var id := m.alerts[key].id;
    assert key !in l.alerts && c.key == key ==> !IdKnown(l, id);
    if c.key != key && c.key in m.alerts {
      assert m.alerts[c.key].id != id;
    }
  }

  /** What taking the first `n` changes has come to. */
  ghost predicate Taken(l: Ledger, changes: seq<Change>, n: nat, key: Key, pending: set<string>)
    requires n <= |changes|
  {
    && Priming(l, changes, n, key, pending)
    && (forall x :: 0 <= x < n && changes[x].key != key ==> changes[x].key in l.alerts)
    && (key in l.alerts ==> l.alerts[key].revision <= n)
    && (key in l.alerts ==> exists x :: 0 <= x < n && changes[x].key == key && changes[x].occurrence !in pending)
  }

  lemma TakeOne(l: Ledger, changes: seq<Change>, n: nat, key: Key, pending: set<string>) returns (m: Ledger)
    requires n < |changes| && Taken(l, changes, n, key, pending)
    ensures Taken(m, changes, n + 1, key, pending)
  {
    var c := changes[n];
    if Wanted(c, key, pending) {
      var id, _ := Unused(l, pending);
      var f := Fault(c.key, c.occurrence, id);
      m := AddFault(l, changes, n, key, pending, f);
      assert Recorded(m, f) <==> Recorded(m, c);
    } else {
      m := l;
    }
  }

  /** Takes the wanted reports of the first `n` changes. */
  lemma {:induction false} Take(changes: seq<Change>, n: nat, key: Key, pending: set<string>) returns (l: Ledger)
    requires n <= |changes|
    ensures Taken(l, changes, n, key, pending)
  {
    if n == 0 {
      EmptyIsReachable();
      l := EMPTY;
    } else {
      var before := Take(changes, n - 1, key, pending);
      l := TakeOne(before, changes, n - 1, key, pending);
    }
  }

  /** Raises an open alert, or opens it, to the given revision. */
  lemma {:induction false} Raise(l: Ledger, changes: seq<Change>, key: Key, pending: set<string>, revision: nat) returns (m: Ledger)
    requires Priming(l, changes, |changes|, key, pending)
    requires revision >= 1 && (key in l.alerts ==> l.alerts[key].revision <= revision)
    ensures Priming(m, changes, |changes|, key, pending) && l.alerts.Keys <= m.alerts.Keys
    ensures key in m.alerts && m.alerts[key].revision == revision
    decreases revision - if key in l.alerts then l.alerts[key].revision else 0
  {
    if key in l.alerts && l.alerts[key].revision == revision {
      m := l;
    } else {
      var id, occurrence := Unused(l, pending);
      var f := Fault(key, occurrence, id);
      var next := AddFault(l, changes, |changes|, key, pending, f);
      m := Raise(next, changes, key, pending, revision);
    }
  }

  /** Some run primes its ledger, if the alert may be old enough: older than the batch is long, or none of its
      reports is wanted. */
  lemma Prime(changes: seq<Change>, key: Key, revision: nat, resolved: bool, pending: set<string>) returns (l: Ledger)
    requires revision >= 1 && (resolved ==> revision >= 2)
    requires |changes| < revision || forall c :: c in changes && c.key == key ==> c.occurrence in pending
    ensures Reachable(l) && Primed(l, changes, key, revision, resolved, pending)
  {
    var taken := Take(changes, |changes|, key, pending);
    var open := Raise(taken, changes, key, pending, if resolved then revision - 1 else revision);
    if resolved {
      var _, occurrence := Unused(open, pending);
      var c := Change(Recovery, key, occurrence, revision - 1, 0, "", "", false, "", true);
      l := ApplyOne(open, c).ledger;
      OneMoreChange(open, c);
      assert l.occurrences == open.occurrences + {(l.alerts[key].id, occurrence)};
    } else {
      l := open;
    }
    forall c | c in changes ensures c.key in l.alerts && (Recorded(l, c) <==> Wanted(c, key, pending)) {
      var x :| 0 <= x < |changes| && changes[x] == c;
    }
  }
}
