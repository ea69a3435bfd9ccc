/** When applying a batch of alert changes twice is applying it once, on the ledgers of all runs. */
module AlertRepeats {
  import opened AlertLedger
  import opened AlertBatches
  import opened AlertPriming
  import opened Sets

  /** A ledger on which every change but the one at `j` does nothing, and which that one makes conflict
      with the one at `i`. */
  ghost predicate Broken(l: Ledger, changes: seq<Change>, i: nat, j: nat)
    requires i < |changes| && j < |changes|
  {
    && (forall x :: 0 <= x < j ==> Settled(l, changes[x]))
    && ApplyOne(l, changes[j]).Done?
    && (forall x :: j < x < |changes| ==> Settled(ApplyOne(l, changes[j]).ledger, changes[x]))
    && ApplyOne(ApplyOne(l, changes[j]).ledger, changes[i]) == Conflict
  }

  lemma BrokenDoesNotRepeat(l: Ledger, changes: seq<Change>, i: nat, j: nat)
    requires i < j < |changes| && Broken(l, changes, i, j)
    ensures ApplyAll(l, changes).Done? && !Repeats(l, changes)
  {
    var m, later := ApplyOne(l, changes[j]).ledger, changes[j + 1..];
    SkipSettled(l, changes, j);
    assert changes[j..][1..] == later;
    forall x | 0 <= x < |later| ensures Settled(m, later[x]) {
      assert later[x] == changes[j + 1 + x];
    }
    BatchSettles(m, later);
    RepeatsExactly(l, changes);
  }

  /** A relapse breaks repetition on the ledger of some run: the alert was resolved at the revision the
      recovery expects, so the recovery did nothing; the failure then reopened it, and the recovery is stale. */
  lemma RelapseDoesNotRepeat(changes: seq<Change>, i: nat, j: nat) returns (l: Ledger)
    requires AllWellFormed(changes) && DistinctReports(changes)
    requires i < j < |changes| && Relapse(changes[i], changes[j]) && changes[i].expected > |changes|
    ensures Reachable(l) && FreshIds(l, changes) && ApplyAll(l, changes).Done? && !Repeats(l, changes)
  {
    var pending := {changes[i].occurrence, changes[j].occurrence};
    l := Prime(changes, changes[i].key, changes[i].expected, true, pending);
    KnownIdsAreFresh(l, changes);
    forall x | 0 <= x < |changes| && x != j
      ensures Settled(l, changes[x]) && (j < x ==> ApplyOne(l, changes[j]).Done? && Settled(ApplyOne(l, changes[j]).ledger, changes[x]))
    {
      RelapseSettles(l, changes, i, j, x);
    }
    RelapseConflicts(l, changes, i, j);
    BrokenDoesNotRepeat(l, changes, i, j);
  }

  ghost predicate PrimedFor(l: Ledger, changes: seq<Change>, i: nat, j: nat)
    requires i < |changes| && j < |changes|
  {
    Primed(l, changes, changes[i].key, changes[i].expected, true, {changes[i].occurrence, changes[j].occurrence})
  }

  lemma RelapseConflicts(l: Ledger, changes: seq<Change>, i: nat, j: nat)
    requires i < j < |changes| && Relapse(changes[i], changes[j]) && WellFormed(changes[i]) && WellFormed(changes[j])
    requires PrimedFor(l, changes, i, j)
    ensures ApplyOne(l, changes[j]).Done? && ApplyOne(ApplyOne(l, changes[j]).ledger, changes[i]) == Conflict
  {
    assert changes[i] in changes && changes[j] in changes;
    assert !Recorded(l, changes[i]) && !Recorded(l, changes[j]);
  }

  lemma RelapseSettles(l: Ledger, changes: seq<Change>, i: nat, j: nat, x: nat)
    requires AllWellFormed(changes) && DistinctReports(changes)
    requires i < j < |changes| && x < |changes| && x != j && Relapse(changes[i], changes[j])
    requires PrimedFor(l, changes, i, j)
    ensures Settled(l, changes[x])
    ensures j < x ==> ApplyOne(l, changes[j]).Done? && Settled(ApplyOne(l, changes[j]).ledger, changes[x])
  {
    assert changes[i] in changes && changes[j] in changes && changes[x] in changes;
    RelapseConflicts(l, changes, i, j);
    SettledMeans(l, changes[x]);
    if j < x {
      RecordedStays(l, changes[x], changes[j]);
      SettledMeans(ApplyOne(l, changes[j]).ledger, changes[x]);
    }
  }

  /** The recoveries expect alerts older than the batch is long. */
  predicate Seasoned(changes: seq<Change>) {
    forall i :: 0 <= i < |changes| && changes[i].kind == Recovery ==> changes[i].expected > |changes|
  }

  /** For valid changes with one report each, whose recoveries expect seasoned alerts, a batch repeats on the
      ledger of every run on which it succeeds if and only if it holds no relapse. */
  lemma IdempotentExactly(changes: seq<Change>)
    requires AllWellFormed(changes) && DistinctReports(changes) && Seasoned(changes)
    ensures NoRelapse(changes) <==>
            forall l: Ledger :: Reachable(l) && FreshIds(l, changes) && ApplyAll(l, changes).Done? ==> Repeats(l, changes)
  {
    if NoRelapse(changes) {
      forall l: Ledger | Reachable(l) && FreshIds(l, changes) && ApplyAll(l, changes).Done? ensures Repeats(l, changes) {
        BatchIsIdempotent(l, changes);
      }
    } else {
      var i, j :| 0 <= i < j < |changes| && Relapse(changes[i], changes[j]);
      var l := RelapseDoesNotRepeat(changes, i, j);
    }
  }

  /** Where reports are shared a relapse can be harmless: a later failure that carries the recovery's own
      report leaves it recorded, on every ledger. */
  lemma SharedReportRepeats(l: Ledger, recovery: Change, failure: Change, again: Change)
    requires Relapse(recovery, failure) && again.kind == Failure
    requires again.key == recovery.key && again.occurrence == recovery.occurrence
    requires ApplyAll(l, [recovery, failure, again]).Done?
    ensures !NoRelapse([recovery, failure, again]) && Repeats(l, [recovery, failure, again])
  {
    var changes, tail := [recovery, failure, again], [failure, again];
    assert changes[1..] == tail && Relapse(changes[0], changes[1]);
    var m := ApplyOne(l, recovery).ledger;
    var r := ApplyAll(l, changes).ledger;
    AllSettle(m, tail);
    assert Settled(r, tail[0]) && Settled(r, tail[1]);
    SettledMeans(r, again);
    SettledMeans(r, recovery);
    RepeatsExactly(l, changes);
  }

  /** It takes no old alert either: on the empty ledger a recovery skipped before a failure does not repeat. */
  lemma RepeatedKeyIsNotIdempotent(key: Key, at: int) returns (changes: seq<Change>)
    ensures ApplyAll(EMPTY, changes).Done? && !Repeats(EMPTY, changes)
  {
    var recovery := Change(Recovery, key, "r", 1, at, "", "", false, "", true);
    var failure := Change(Failure, key, "f", 0, at, "", "", false, "id", true);
    changes := [recovery, failure];
    ApplyPair(EMPTY, recovery, failure);
    var once := ApplyOne(EMPTY, failure).ledger;
    ApplyPair(once, recovery, failure);
    var again := ApplyOne(once, recovery).ledger;
    assert |again.events| == |once.events| + 1;
    assert ApplyOne(again, failure) == Done(again);
  }

  lemma ApplyPair(l: Ledger, c: Change, d: Change)
    ensures ApplyAll(l, [c, d]) ==
            if ApplyOne(l, c).Done? then ApplyOne(ApplyOne(l, c).ledger, d) else ApplyOne(l, c)
  {
    assert [c, d][1..] == [d] && [d][1..] == [];
    if ApplyOne(l, c).Done? {
      var m := ApplyOne(l, c).ledger;
      assert ApplyAll(m, [d]) == ApplyOne(m, d);
    }
  }

  // ---------------------------------------------------------------- batches that repeat for another reason

  lemma {:induction false} ReportsAreEvents(events: seq<Event>, id: string)
    ensures Reports(events, id) <= Count(events, id)
  {
    if events != [] {
      ReportsAreEvents(events[..|events| - 1], id);
    }
  }

  /** An alert that has taken two reports is not at its first revision. */
  lemma TwoReports(l: Ledger, a: Change, b: Change)
    requires Balanced(l) && Recorded(l, a) && Recorded(l, b) && a.key == b.key && a.occurrence != b.occurrence
    ensures l.alerts[a.key].revision >= 2
  {
    var id := l.alerts[a.key].id;
    ReportsAreEvents(l.events, id);
    var two := {(id, a.occurrence), (id, b.occurrence)};
    assert two <= Seen(l, id);
    SubsetSize(two, Seen(l, id));
  }

  lemma ApplyFour(l: Ledger, a: Change, b: Change, c: Change, d: Change)
    requires ApplyAll(l, [a, b, c, d]).Done? && FreshIds(l, [a, b, c, d])
    ensures ApplyOne(l, a).Done? && FreshId(l, a)
    ensures var m := ApplyOne(l, a).ledger;
            && ApplyOne(m, b).Done? && FreshId(m, b)
            && ApplyAll(l, [a, b, c, d]) == ApplyAll(ApplyOne(m, b).ledger, [c, d])
  {
    assert [a, b, c, d][1..] == [b, c, d] && [b, c, d][1..] == [c, d];
  }

  /** Two failures of its key recorded leave a recovery that expects the first revision only one way to pass. */
  lemma TwoFailuresFirst(l: Ledger, a: Change, b: Change) returns (m: Ledger)
    requires a.kind == Failure && b.kind == Failure && a.key == b.key && a.occurrence != b.occurrence
    requires Balanced(l) && ApplyOne(l, a).Done? && FreshId(l, a)
    requires ApplyOne(ApplyOne(l, a).ledger, b).Done? && FreshId(ApplyOne(l, a).ledger, b)
    ensures m == ApplyOne(ApplyOne(l, a).ledger, b).ledger && Recorded(m, a) && Recorded(m, b) && m.alerts[a.key].revision >= 2
  {
    var l1 := ApplyOne(l, a).ledger;
    m := ApplyOne(l1, b).ledger;
    ApplyOneBalanced(l, a);
    ApplyOneBalanced(l1, b);
    RecordedStays(l1, a, b);
    TwoReports(m, a, b);
  }

  /** Recoveries that expect too young an alert are another matter: this batch holds a relapse, and yet it
      repeats on the ledger of every run on which it succeeds, because two failures before the recovery
      leave it no way to pass but as recorded. */
  lemma EarlyRelapseRepeats(l: Ledger, a: Change, b: Change, recovery: Change, failure: Change)
    requires a.kind == Failure && b.kind == Failure && a.key == b.key == recovery.key && a.occurrence != b.occurrence
    requires Relapse(recovery, failure) && recovery.expected == 1
    requires Reachable(l) && FreshIds(l, [a, b, recovery, failure]) && ApplyAll(l, [a, b, recovery, failure]).Done?
    ensures !NoRelapse([a, b, recovery, failure]) && Repeats(l, [a, b, recovery, failure])
  {
    var changes := [a, b, recovery, failure];
    assert Relapse(changes[2], changes[3]);
    ReachableBalances(l);
    ApplyFour(l, a, b, recovery, failure);
    var m := TwoFailuresFirst(l, a, b);
    ApplyPair(m, recovery, failure);
    assert Recorded(m, recovery);
    var r := ApplyOne(m, failure).ledger;
    RecordedStays(m, a, failure);
    RecordedStays(m, b, failure);
    RecordedStays(m, recovery, failure);
    RecordedSettles(r, a);
    RecordedSettles(r, b);
    RecordedSettles(r, recovery);
    RecordedSettles(r, failure);
    RepeatsExactly(l, changes);
  }
}
