/** Batches of alert changes: what it means that one repeats, and batches that repeat on every ledger. */
module AlertBatches {
  import opened AlertLedger

  predicate DistinctKeys(changes: seq<Change>) {
    forall i, j :: 0 <= i < j < |changes| ==> changes[i].key != changes[j].key
  }

  /** Applying the change changes nothing. */
  predicate Settled(l: Ledger, c: Change) {
    ApplyOne(l, c) == Done(l)
  }

  predicate AllSettled(l: Ledger, changes: seq<Change>) {
    forall i :: 0 <= i < |changes| ==> Settled(l, changes[i])
  }

  /** A recovery of nothing, a report already recorded, or a recovery of a resolved alert. */
  predicate NothingToDo(l: Ledger, c: Change) {
    if c.key !in l.alerts then c.kind == Recovery
    else Recorded(l, c) || (c.kind == Recovery && l.alerts[c.key].revision == c.expected && l.alerts[c.key].resolved)
  }

  lemma SettledMeans(l: Ledger, c: Change)
    ensures Settled(l, c) <==> WellFormed(c) && NothingToDo(l, c)
  {
    if ApplyOne(l, c).Done? && ApplyOne(l, c).ledger != l {
      assert |ApplyOne(l, c).ledger.events| == |l.events| + 1;
    }
  }

  /** History only grows. */
  lemma {:induction false} EventsGrow(l: Ledger, changes: seq<Change>)
    requires ApplyAll(l, changes).Done?
    ensures |ApplyAll(l, changes).ledger.events| >= |l.events|
    decreases changes
  {
    if changes != [] {
      EventsGrow(ApplyOne(l, changes[0]).ledger, changes[1..]);
    }
  }

  /** A batch leaves a ledger as it is if and only if each of its changes does. */
  lemma {:induction false} BatchSettles(l: Ledger, changes: seq<Change>)
    ensures ApplyAll(l, changes) == Done(l) <==> AllSettled(l, changes)
    decreases changes
  {
    if changes != [] {
      var first := ApplyOne(l, changes[0]);
      BatchSettles(l, changes[1..]);
      if ApplyAll(l, changes) == Done(l) {
        EventsGrow(first.ledger, changes[1..]);
        assert first.ledger == l;
      }
      assert AllSettled(l, changes) <==> Settled(l, changes[0]) && AllSettled(l, changes[1..]) by {
        assert forall i :: 0 < i < |changes| ==> changes[i] == changes[1..][i - 1];
      }
    }
  }

  /** Applying the batch to its own result returns that result. */
  predicate Repeats(l: Ledger, changes: seq<Change>)
    requires ApplyAll(l, changes).Done?
  {
    ApplyAll(ApplyAll(l, changes).ledger, changes) == ApplyAll(l, changes)
  }

  /** A successful batch repeats exactly when its result has nothing left to do for any of its changes. */
  lemma RepeatsExactly(l: Ledger, changes: seq<Change>)
    requires ApplyAll(l, changes).Done?
    ensures Repeats(l, changes) <==> AllSettled(ApplyAll(l, changes).ledger, changes)
  {
    BatchSettles(ApplyAll(l, changes).ledger, changes);
  }

  /** The failure may reopen what the recovery before it found resolved, or create what it found missing. */
  predicate Relapse(recovery: Change, failure: Change) {
    && recovery.kind == Recovery && failure.kind == Failure && recovery.key == failure.key
    && recovery.occurrence != failure.occurrence
  }

  /** What a caller can check before the call: no recovery is followed by another report's failure of its key. */
  predicate NoRelapse(changes: seq<Change>) {
    forall i, j :: 0 <= i < j < |changes| ==> !Relapse(changes[i], changes[j])
  }

  lemma ApplyOneSettles(l: Ledger, c: Change)
    requires ApplyOne(l, c).Done?
    ensures Settled(ApplyOne(l, c).ledger, c)
  {
  }

  lemma SettledStays(l: Ledger, c: Change, d: Change)
    requires Settled(l, c) && !Relapse(c, d) && ApplyOne(l, d).Done?
    ensures Settled(ApplyOne(l, d).ledger, c)
  {
    SettledMeans(l, c);
    SettledMeans(ApplyOne(l, d).ledger, c);
  }

  lemma {:induction false} SettledThrough(l: Ledger, c: Change, changes: seq<Change>)
    requires Settled(l, c) && ApplyAll(l, changes).Done?
    requires forall i :: 0 <= i < |changes| ==> !Relapse(c, changes[i])
    ensures Settled(ApplyAll(l, changes).ledger, c)
    decreases changes
  {
    if changes != [] {
      SettledStays(l, c, changes[0]);
      SettledThrough(ApplyOne(l, changes[0]).ledger, c, changes[1..]);
    }
  }

  lemma {:induction false} AllSettle(l: Ledger, changes: seq<Change>)
    requires NoRelapse(changes) && ApplyAll(l, changes).Done?
    ensures AllSettled(ApplyAll(l, changes).ledger, changes)
    decreases changes
  {
    if changes != [] {
      var m := ApplyOne(l, changes[0]).ledger;
      ApplyOneSettles(l, changes[0]);
      SettledThrough(m, changes[0], changes[1..]);
      AllSettle(m, changes[1..]);
      assert forall i :: 0 < i < |changes| ==> changes[i] == changes[1..][i - 1];
    }
  }

  /** A successful batch without a relapse, applied twice, equals it applied once. */
  lemma BatchIsIdempotent(l: Ledger, changes: seq<Change>)
    requires NoRelapse(changes) && ApplyAll(l, changes).Done?
    ensures Repeats(l, changes)
  {
    AllSettle(l, changes);
    RepeatsExactly(l, changes);
  }

  /** In particular one with pairwise distinct keys. */
  lemma DistinctKeysRepeat(l: Ledger, changes: seq<Change>)
    requires DistinctKeys(changes) && ApplyAll(l, changes).Done?
    ensures Repeats(l, changes)
  {
    BatchIsIdempotent(l, changes);
  }

  /** A report once recorded stays so. */
  lemma RecordedStays(l: Ledger, c: Change, d: Change)
    requires Recorded(l, c) && ApplyOne(l, d).Done?
    ensures Recorded(ApplyOne(l, d).ledger, c)
  {
  }

  lemma RecordedSettles(l: Ledger, c: Change)
    requires Recorded(l, c)
    ensures WellFormed(c) ==> Settled(l, c)
  {
  }

  lemma {:induction false} SkipSettled(l: Ledger, changes: seq<Change>, n: nat)
    requires n <= |changes| && forall i :: 0 <= i < n ==> Settled(l, changes[i])
    ensures ApplyAll(l, changes) == ApplyAll(l, changes[n..])
    decreases n
  {
    if n == 0 {
      assert changes[0..] == changes;
    } else {
      SkipSettled(l, changes[1..], n - 1);
      assert changes[1..][n - 1..] == changes[n..];
    }
  }

  /** No alert is opened where all alerts are known. */
  lemma {:induction false} KnownIdsAreFresh(l: Ledger, changes: seq<Change>)
    requires forall i :: 0 <= i < |changes| ==> changes[i].key in l.alerts
    ensures FreshIds(l, changes)
    decreases changes
  {
    if changes != [] && ApplyOne(l, changes[0]).Done? {
      assert l.alerts.Keys <= ApplyOne(l, changes[0]).ledger.alerts.Keys;
      forall i | 0 <= i < |changes[1..]| ensures changes[1..][i].key in ApplyOne(l, changes[0]).ledger.alerts {
        assert changes[1..][i] == changes[i + 1];
      }
      KnownIdsAreFresh(ApplyOne(l, changes[0]).ledger, changes[1..]);
    }
  }

  predicate AllWellFormed(changes: seq<Change>) {
    forall i :: 0 <= i < |changes| ==> WellFormed(changes[i])
  }

  /** No two changes of one key carry the same report. */
  predicate DistinctReports(changes: seq<Change>) {
    forall i, j :: 0 <= i < j < |changes| && changes[i].key == changes[j].key ==> changes[i].occurrence != changes[j].occurrence
  }
}
