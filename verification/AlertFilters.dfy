/** When filtering a batch of alert changes against the ledger rules out a conflict, on the ledgers of all runs. */
module AlertFilters {
  import opened AlertLedger
  import opened AlertBatches
  import opened AlertPriming

  /** The earlier change moves the alert from under the recovery: a failure, or another recovery that
      expects the same revision. */
  predicate Undercuts(d: Change, c: Change) {
    && c.kind == Recovery && d.key == c.key && d.occurrence != c.occurrence
    && (d.kind == Failure || d.expected == c.expected)
  }

  predicate SameReport(d: Change, c: Change) {
    d.key == c.key && d.occurrence == c.occurrence
  }

  /** Some failure before position `j` carries the report of the recovery there, which is then skipped. */
  predicate Covered(changes: seq<Change>, j: nat)
    requires j < |changes|
  {
    exists x :: 0 <= x < j && changes[x].kind == Failure && SameReport(changes[x], changes[j])
  }

  /** No failure of the key comes before position `x`. */
  predicate FirstOfKey(changes: seq<Change>, x: nat)
    requires x < |changes|
  {
    forall y :: 0 <= y < x && changes[y].key == changes[x].key ==> changes[y].kind == Recovery
  }

  /** At its first revision an alert is open: then a first recovery with the same report always gets recorded. */
  predicate Shield(changes: seq<Change>, x: nat, j: nat)
    requires x < j < |changes|
  {
    changes[x].kind == Recovery && changes[x].expected == 1 && SameReport(changes[x], changes[j]) && FirstOfKey(changes, x)
  }

  predicate Shielded(changes: seq<Change>, j: nat)
    requires j < |changes|
  {
    changes[j].expected == 1 && exists x :: 0 <= x < j && Shield(changes, x, j)
  }

  /** What a caller can check before the call. */
  predicate NoUndercut(changes: seq<Change>) {
    forall i, j :: 0 <= i < j < |changes| && Undercuts(changes[i], changes[j]) ==> Covered(changes, j) || Shielded(changes, j)
  }

  /** The recovery at `j` meets no conflict: it is recorded, or will be, or its alert has not moved and nothing
      ahead moves it. `l` is the ledger that the filter saw. */
  ghost predicate Safe(l: Ledger, m: Ledger, changes: seq<Change>, j: nat)
    requires j < |changes|
  {
    changes[j].kind == Recovery && IsCurrent(l, changes[j]) ==>
      && changes[j].key in m.alerts
      && (|| Recorded(m, changes[j]) || Covered(changes, j)
          || (&& m.alerts[changes[j].key] == l.alerts[changes[j].key]
              && forall i :: 0 <= i < j && Undercuts(changes[i], changes[j]) ==> Shielded(changes, j)))
  }

  ghost predicate Clear(l: Ledger, m: Ledger, changes: seq<Change>) {
    forall j :: 0 <= j < |changes| ==> Safe(l, m, changes, j)
  }

  /** The ledger after the first change of what is left. */
  function After(l: Ledger, m: Ledger, c: Change): Ledger {
    if IsCurrent(l, c) && ApplyOne(m, c).Done? then ApplyOne(m, c).ledger else m
  }

  lemma CoveredTail(l: Ledger, m: Ledger, changes: seq<Change>, j: nat)
    requires 0 < j < |changes| && changes[j].key in m.alerts
    requires IsCurrent(l, changes[0]) ==> ApplyOne(m, changes[0]).Done?
    requires Recorded(m, changes[j]) || Covered(changes, j)
    ensures var n := After(l, m, changes[0]);
            changes[j].key in n.alerts && (Recorded(n, changes[j]) || Covered(changes[1..], j - 1))
  {
    assert changes[1..][j - 1] == changes[j];
    if Covered(changes, j) {
      var x :| 0 <= x < j && changes[x].kind == Failure && SameReport(changes[x], changes[j]);
      if x > 0 {
        assert changes[1..][x - 1] == changes[x];
      }
    }
  }

  lemma {:induction false} LeastShield(changes: seq<Change>, j: nat, x: nat) returns (n: nat)
    requires x < j < |changes| && Shield(changes, x, j)
    ensures n <= x && Shield(changes, n, j)
    ensures forall y :: 0 <= y < n ==> !Shield(changes, y, j)
    decreases x
  {
    if y :| 0 <= y < x && Shield(changes, y, j) {
      n := LeastShield(changes, j, y);
    } else {
      n := x;
    }
  }

  /** Nothing that is filtered in stands before a shield with another report of its key. */
  lemma ShieldComesFirst(l: Ledger, m: Ledger, changes: seq<Change>, j: nat)
    requires 0 < j < |changes| && Clear(l, m, changes) && IsCurrent(l, changes[j]) && changes[j].kind == Recovery
    requires !Recorded(m, changes[j]) && !Covered(changes, j) && Shielded(changes, j)
    requires WellFormed(changes[0]) && IsCurrent(l, changes[0]) && changes[0].key == changes[j].key
    ensures changes[0].occurrence == changes[j].occurrence
  {
    var any :| 0 <= any < j && Shield(changes, any, j);
    var x := LeastShield(changes, j, any);
    if changes[0].occurrence != changes[j].occurrence {
      assert Undercuts(changes[0], changes[x]);
      assert Safe(l, m, changes, x);
      assert !Covered(changes, x) && !Recorded(m, changes[x]);
      assert Shielded(changes, x);
      var y :| 0 <= y < x && Shield(changes, y, x);
      assert Shield(changes, y, j);
    }
  }

  lemma SafeTail(l: Ledger, m: Ledger, changes: seq<Change>, j: nat)
    requires Balanced(l) && Clear(l, m, changes) && 0 < j < |changes|
    requires WellFormed(changes[0]) || !IsCurrent(l, changes[0])
    requires IsCurrent(l, changes[0]) ==> ApplyOne(m, changes[0]).Done?
    ensures Safe(l, After(l, m, changes[0]), changes[1..], j - 1)
  {
    var c, d, n, rest := changes[j], changes[0], After(l, m, changes[0]), changes[1..];
    assert rest[j - 1] == c && Safe(l, m, changes, j);
    if c.kind == Recovery && IsCurrent(l, c) {
      if Recorded(m, c) || Covered(changes, j) {
        CoveredTail(l, m, changes, j);
      } else if d.key != c.key || !IsCurrent(l, d) {
        UndercutTail(l, changes, j);
      } else {
        if Shielded(changes, j) {
          ShieldComesFirst(l, m, changes, j);
        }
        HeadOfKey(l, m, changes, j);
      }
    }
  }

  /** A head of another key, or one filtered out, is no shield. */
  lemma UndercutTail(l: Ledger, changes: seq<Change>, j: nat)
    requires 0 < j < |changes| && (changes[0].key != changes[j].key || !IsCurrent(l, changes[0]))
    requires changes[j].kind == Recovery && IsCurrent(l, changes[j])
    requires forall i :: 0 <= i < j && Undercuts(changes[i], changes[j]) ==> Shielded(changes, j)
    ensures forall i :: 0 <= i < j - 1 && Undercuts(changes[1..][i], changes[1..][j - 1]) ==> Shielded(changes[1..], j - 1)
  {
    var rest := changes[1..];
    forall i | 0 <= i < j - 1 && Undercuts(rest[i], rest[j - 1]) ensures Shielded(rest, j - 1) {
      assert Undercuts(changes[i + 1], changes[j]);
      var x :| 0 <= x < j && Shield(changes, x, j);
      assert x != 0;
      assert Shield(rest, x - 1, j - 1) by {
        forall y | 0 <= y < x - 1 && rest[y].key == rest[x - 1].key ensures rest[y].kind == Recovery {
          assert rest[y] == changes[y + 1];
        }
      }
    }
  }

  /** A head of the same key carries the same report, or cannot be there. */
  lemma HeadOfKey(l: Ledger, m: Ledger, changes: seq<Change>, j: nat)
    requires Balanced(l) && Clear(l, m, changes) && 0 < j < |changes|
    requires changes[j].kind == Recovery && IsCurrent(l, changes[j]) && !Recorded(m, changes[j]) && !Covered(changes, j)
    requires changes[0].key == changes[j].key && IsCurrent(l, changes[0]) && WellFormed(changes[0]) && ApplyOne(m, changes[0]).Done?
    requires Shielded(changes, j) ==> changes[0].occurrence == changes[j].occurrence
    ensures Safe(l, After(l, m, changes[0]), changes[1..], j - 1)
  {
    var c, d, n, rest := changes[j], changes[0], After(l, m, changes[0]), changes[1..];
    assert rest[j - 1] == c && Safe(l, m, changes, j);
    assert d.occurrence != c.occurrence ==> Undercuts(d, c);
    assert d.kind == Recovery && d.occurrence == c.occurrence;
    if !Recorded(n, c) {
      assert n == m && l.alerts[c.key].resolved;
      assert !Shielded(changes, j);
      forall i | 0 <= i < j - 1 ensures !Undercuts(rest[i], rest[j - 1]) {
        assert rest[i] == changes[i + 1];
      }
    }
  }

  lemma {:induction false} ClearNeverConflicts(l: Ledger, m: Ledger, changes: seq<Change>)
    requires Balanced(l) && Clear(l, m, changes)
    ensures ApplyAll(m, Current(l, changes)) != Conflict
    decreases changes
  {
    if changes != [] {
      CurrentHead(l, changes);
      var d := changes[0];
      assert Safe(l, m, changes, 0) && !Covered(changes, 0);
      assert IsCurrent(l, d) ==> ApplyOne(m, d) != Conflict;
      if !IsCurrent(l, d) || ApplyOne(m, d).Done? {
        forall j | 0 <= j < |changes| - 1 ensures Safe(l, After(l, m, d), changes[1..], j) {
          SafeTail(l, m, changes, j + 1);
        }
        ClearNeverConflicts(l, After(l, m, d), changes[1..]);
      }
    }
  }

  /** A batch that undercuts none of its recoveries, filtered in the same transaction, ends in a conflict on
      the ledger of no run. */
  lemma FilteredNeverConflicts(l: Ledger, changes: seq<Change>)
    requires Balanced(l) && NoUndercut(changes)
    ensures ApplyAll(l, Current(l, changes)) != Conflict
  {
    ClearNeverConflicts(l, l, changes);
  }

  /** In particular one with pairwise distinct keys. */
  lemma DistinctKeysNeverConflict(l: Ledger, changes: seq<Change>)
    requires Balanced(l) && DistinctKeys(changes)
    ensures ApplyAll(l, Current(l, changes)) != Conflict
  {
    FilteredNeverConflicts(l, changes);
  }

  // ---------------------------------------------------------------- filtered batches that conflict

  lemma {:induction false} SkipCurrent(l: Ledger, m: Ledger, changes: seq<Change>, n: nat)
    requires n <= |changes| && forall x :: 0 <= x < n ==> !IsCurrent(l, changes[x]) || Settled(m, changes[x])
    ensures ApplyAll(m, Current(l, changes)) == ApplyAll(m, Current(l, changes[n..]))
    decreases n
  {
    if n == 0 {
      assert changes[0..] == changes;
    } else {
      SkipCurrent(l, m, changes[1..], n - 1);
      assert changes[1..][n - 1..] == changes[n..];
      CurrentHead(l, changes);
    }
  }

  lemma CurrentHead(l: Ledger, changes: seq<Change>)
    requires changes != []
    ensures Current(l, changes) ==
            if IsCurrent(l, changes[0]) then [changes[0]] + Current(l, changes[1..]) else Current(l, changes[1..])
    ensures IsCurrent(l, changes[0]) ==> Current(l, changes)[1..] == Current(l, changes[1..])
  {
  }

  /** The alert has moved past the recovery at `n`, which nothing before it records. */
  ghost predicate Stale(l: Ledger, m: Ledger, changes: seq<Change>, n: nat)
    requires n < |changes|
  {
    var c := changes[n];
    && c.kind == Recovery && IsCurrent(l, c)
    && c.key in m.alerts && m.alerts[c.key].revision > c.expected && !Recorded(m, c)
    && forall x :: 0 <= x < n ==>
         && changes[x].key in m.alerts
         && (changes[x].key != c.key ==> Recorded(m, changes[x]))
         && (changes[x].kind == Failure ==> !SameReport(changes[x], c))
  }

  /** Then the filtered batch conflicts, there or before. */
  lemma {:induction false} StaleConflicts(l: Ledger, m: Ledger, changes: seq<Change>, n: nat)
    requires AllWellFormed(changes) && n < |changes| && Stale(l, m, changes, n)
    ensures ApplyAll(m, Current(l, changes)) == Conflict
    decreases n
  {
    CurrentHead(l, changes);
    var c, d := changes[n], changes[0];
    if n > 0 && (!IsCurrent(l, d) || ApplyOne(m, d) != Conflict) {
      StaleTail(l, m, changes, n);
      StaleConflicts(l, After(l, m, d), changes[1..], n - 1);
    }
  }

  lemma StaleTail(l: Ledger, m: Ledger, changes: seq<Change>, n: nat)
    requires AllWellFormed(changes) && 0 < n < |changes| && Stale(l, m, changes, n)
    requires IsCurrent(l, changes[0]) ==> ApplyOne(m, changes[0]) != Conflict
    ensures IsCurrent(l, changes[0]) ==> ApplyOne(m, changes[0]).Done?
    ensures Stale(l, After(l, m, changes[0]), changes[1..], n - 1)
  {
    var c, d, rest := changes[n], changes[0], changes[1..];
    var next := After(l, m, d);
    assert WellFormed(d) && rest[n - 1] == c;
    SettledMeans(m, d);
    forall x | 0 <= x < n - 1
      ensures rest[x].key in next.alerts && (rest[x].key != c.key ==> Recorded(next, rest[x]))
      ensures rest[x].kind == Failure ==> !SameReport(rest[x], c)
    {
      assert rest[x] == changes[x + 1];
    }
  }

  /** A change at `n` that undercuts the recovery at `target`, written to a ledger that has taken all reports of
      other keys. */
  ghost predicate Undercutting(l: Ledger, changes: seq<Change>, n: nat, target: nat)
    requires n < target < |changes|
  {
    var d, c := changes[n], changes[target];
    && c.kind == Recovery && IsCurrent(l, c) && !Recorded(l, c)
    && Undercuts(d, c) && ApplyOne(l, d).Done? && !Settled(l, d)
    && (forall x :: 0 <= x < |changes| ==> changes[x].key in l.alerts && (changes[x].key != c.key ==> Recorded(l, changes[x])))
    && forall x :: 0 <= x < target && changes[x].kind == Failure ==> !SameReport(changes[x], c)
  }

  /** It moves the alert from under the recovery. */
  lemma LeavesStale(l: Ledger, changes: seq<Change>, n: nat, target: nat)
    requires n < target < |changes| && Undercutting(l, changes, n, target)
    ensures Stale(l, ApplyOne(l, changes[n]).ledger, changes[n + 1..], target - n - 1)
  {
    var m, later, c := ApplyOne(l, changes[n]).ledger, changes[n + 1..], changes[target];
    assert later[target - n - 1] == c;
    Moves(l, changes[n], c);
    forall x | 0 <= x < target - n - 1
      ensures later[x].key in m.alerts && (later[x].key != c.key ==> Recorded(m, later[x]))
      ensures later[x].kind == Failure ==> !SameReport(later[x], c)
    {
      assert later[x] == changes[n + 1 + x];
      if later[x].key != c.key {
        RecordedStays(l, later[x], changes[n]);
      }
    }
  }

  /** If nothing is written before it, the batch conflicts. */
  lemma WriteThenStale(l: Ledger, changes: seq<Change>, n: nat, target: nat)
    requires AllWellFormed(changes) && n < target < |changes| && Undercutting(l, changes, n, target) && IsCurrent(l, changes[n])
    requires forall x :: 0 <= x < n ==> !IsCurrent(l, changes[x]) || Settled(l, changes[x])
    ensures ApplyAll(l, Current(l, changes)) == Conflict
  {
    var m, later := ApplyOne(l, changes[n]).ledger, changes[n + 1..];
    SkipCurrent(l, l, changes, n);
    CurrentHead(l, changes[n..]);
    assert changes[n..][1..] == later;
    LeavesStale(l, changes, n, target);
    forall x | 0 <= x < |later| ensures WellFormed(later[x]) {
      assert later[x] == changes[n + 1 + x];
    }
    StaleConflicts(l, m, later, target - n - 1);
  }

  /** A change that is written moves its alert by one revision, and records no report but its own. */
  lemma Moves(l: Ledger, d: Change, c: Change)
    requires ApplyOne(l, d).Done? && !Settled(l, d) && d.key == c.key && d.key in l.alerts
    ensures var m := ApplyOne(l, d).ledger;
            m.alerts[c.key].revision == l.alerts[c.key].revision + 1
            && (d.occurrence != c.occurrence && !Recorded(l, c) ==> !Recorded(m, c))
  {
  }

  predicate Relevant(c: Change, key: Key, expected: nat) {
    c.key == key && (c.kind == Failure || c.expected == expected)
  }

  lemma {:induction false} FirstRelevant(changes: seq<Change>, key: Key, expected: nat, failure: bool, x: nat) returns (n: nat)
    requires x < |changes| && Relevant(changes[x], key, expected) && (failure ==> changes[x].kind == Failure)
    ensures n <= x && Relevant(changes[n], key, expected) && (failure ==> changes[n].kind == Failure)
    ensures forall y :: 0 <= y < n ==> !(Relevant(changes[y], key, expected) && (failure ==> changes[y].kind == Failure))
    decreases x
  {
    if y :| 0 <= y < x && Relevant(changes[y], key, expected) && (failure ==> changes[y].kind == Failure) {
      n := FirstRelevant(changes, key, expected, failure, y);
    } else {
      n := x;
    }
  }

  /** What the witnesses below start from: a ledger of some run with none of the key's reports taken. */
  lemma PrimeNone(changes: seq<Change>, c: Change, resolved: bool) returns (l: Ledger)
    requires AllWellFormed(changes) && c in changes && c.kind == Recovery && WellFormed(c) && (resolved ==> c.expected >= 2)
    ensures Reachable(l) && FreshIds(l, Current(l, changes))
    ensures c.key in l.alerts && l.alerts[c.key].revision == c.expected && l.alerts[c.key].resolved == resolved
    ensures forall x :: 0 <= x < |changes| ==> changes[x].key in l.alerts && (Recorded(l, changes[x]) <==> changes[x].key != c.key)
    ensures forall x :: 0 <= x < |changes| && Recorded(l, changes[x]) ==> Settled(l, changes[x])
  {
    l := Prime(changes, c.key, c.expected, resolved, set d | d in changes :: d.occurrence);
    forall x | 0 <= x < |changes|
      ensures changes[x].key in l.alerts && (Recorded(l, changes[x]) <==> changes[x].key != c.key)
      ensures Recorded(l, changes[x]) ==> Settled(l, changes[x])
    {
      assert changes[x] in changes;
      if Recorded(l, changes[x]) {
        RecordedSettles(l, changes[x]);
      }
    }
    CurrentElements(l, changes);
    var current := Current(l, changes);
    forall i | 0 <= i < |current| ensures current[i].key in l.alerts {
      assert current[i] in current;
      var x :| 0 <= x < |changes| && changes[x] == current[i];
    }
    KnownIdsAreFresh(l, current);
  }

  lemma {:induction false} CurrentElements(l: Ledger, changes: seq<Change>)
    ensures forall c :: c in Current(l, changes) <==> c in changes && IsCurrent(l, c)
  {
    if changes != [] {
      CurrentElements(l, changes[1..]);
    }
  }

  /** A failure of the key comes first: the alert was resolved at the revision the recovery expects. */
  lemma FailureUndercuts(changes: seq<Change>, x: nat, j: nat) returns (l: Ledger)
    requires AllWellFormed(changes) && x < j < |changes| && changes[j].kind == Recovery && changes[j].expected >= 2
    requires !Covered(changes, j) && changes[x].kind == Failure && changes[x].key == changes[j].key
    ensures Reachable(l) && FreshIds(l, Current(l, changes)) && ApplyAll(l, Current(l, changes)) == Conflict
  {
    var c := changes[j];
    l := PrimeNone(changes, c, true);
    var n := FirstRelevant(changes, c.key, c.expected, true, x);
    forall y | 0 <= y < n ensures !IsCurrent(l, changes[y]) || Settled(l, changes[y]) {
      assert WellFormed(changes[y]);
      assert !(Relevant(changes[y], c.key, c.expected) && changes[y].kind == Failure);
    }
    SettledMeans(l, changes[n]);
    WriteThenStale(l, changes, n, j);
  }

  /** The alert is open at the revision the recovery expects, and the first change of its key that is not
      filtered out moves it. */
  lemma OpenUndercuts(changes: seq<Change>, i: nat, j: nat) returns (l: Ledger)
    requires AllWellFormed(changes) && i < j < |changes| && Undercuts(changes[i], changes[j])
    requires !Covered(changes, j) && !Shielded(changes, j)
    requires changes[j].expected == 1 || forall x :: 0 <= x < j && changes[x].key == changes[j].key ==> changes[x].kind == Recovery
    ensures Reachable(l) && FreshIds(l, Current(l, changes)) && ApplyAll(l, Current(l, changes)) == Conflict
  {
    var c := changes[j];
    l := PrimeNone(changes, c, false);
    var n := FirstRelevant(changes, c.key, c.expected, false, i);
    forall y | 0 <= y < n ensures !IsCurrent(l, changes[y]) || Settled(l, changes[y]) {
      assert WellFormed(changes[y]);
      assert !Relevant(changes[y], c.key, c.expected);
    }
    SettledMeans(l, changes[n]);
    if changes[n].occurrence != c.occurrence {
      WriteThenStale(l, changes, n, j);
    } else {
      assert WellFormed(changes[n]) && changes[n].kind == Recovery;
      if c.expected == 1 {
        NotAShield(changes, n, j);
      }
      WriteThenStale(l, changes, n, i);
    }
  }

  lemma NotAShield(changes: seq<Change>, n: nat, j: nat)
    requires AllWellFormed(changes) && n < j < |changes| && changes[j].expected == 1
    requires Relevant(changes[n], changes[j].key, 1) && changes[n].kind == Recovery && SameReport(changes[n], changes[j])
    requires forall y :: 0 <= y < n ==> !Relevant(changes[y], changes[j].key, 1)
    ensures Shielded(changes, j)
  {
    forall y | 0 <= y < n && changes[y].key == changes[n].key ensures changes[y].kind == Recovery {
      assert WellFormed(changes[y]);
    }
    assert Shield(changes, n, j);
  }

  /** For valid changes, filtering rules out conflicts on the ledgers of all runs if and only if the batch
      undercuts none of its recoveries. */
  lemma FilteringSufficesExactly(changes: seq<Change>)
    requires AllWellFormed(changes)
    ensures NoUndercut(changes) <==>
            forall l: Ledger :: Reachable(l) && FreshIds(l, Current(l, changes)) ==> ApplyAll(l, Current(l, changes)) != Conflict
  {
    if NoUndercut(changes) {
      forall l: Ledger | Reachable(l) && FreshIds(l, Current(l, changes)) ensures ApplyAll(l, Current(l, changes)) != Conflict {
        ReachableBalances(l);
        FilteredNeverConflicts(l, changes);
      }
    } else {
      var i, j :| 0 <= i < j < |changes| && Undercuts(changes[i], changes[j]) && !Covered(changes, j) && !Shielded(changes, j);
      var l := UndercutConflicts(changes, i, j);
    }
  }

  lemma UndercutConflicts(changes: seq<Change>, i: nat, j: nat) returns (l: Ledger)
    requires AllWellFormed(changes) && i < j < |changes| && Undercuts(changes[i], changes[j])
    requires !Covered(changes, j) && !Shielded(changes, j)
    ensures Reachable(l) && FreshIds(l, Current(l, changes)) && ApplyAll(l, Current(l, changes)) == Conflict
  {
    assert WellFormed(changes[j]);
    ghost var failures := set x | 0 <= x < j && changes[x].key == changes[j].key && changes[x].kind == Failure;
    if changes[j].expected >= 2 && failures != {} {
      var x :| x in failures;
      l := FailureUndercuts(changes, x, j);
    } else {
      forall x | 0 <= x < j && changes[x].key == changes[j].key && changes[j].expected >= 2 ensures changes[x].kind == Recovery {
        assert WellFormed(changes[x]) && x !in failures;
      }
      l := OpenUndercuts(changes, i, j);
    }
  }
}
