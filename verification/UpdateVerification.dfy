/** Verification of an applied update: the polling loop, against what the polls themselves say. */
module UpdateVerification {
  import opened Wrappers
  import opened UpdateInspection
  import Tables = UpdateTables

  const TIMEOUT: int := 300_000
  const STABLE: int := 30_000

  datatype ServiceResult = ServiceResult(service: string, target: string, actual: string, verified: bool)

  /** One turn of the loop: the clock when it starts, when a changed fingerprint is stamped and when the
      age of the fingerprint is compared; whether the context has ended, the containers could be listed, and
      the wait that follows succeeds. */
  datatype Poll = Poll(at: int, stamp: int, now: int, cancelled: bool, listed: bool, listing: seq<Row>, waited: bool)
  {
    function Rows(): seq<Container> {
      Visible(listing)
    }
  }

  /** The clock does not run backwards, and a wait advances it. */
  ghost predicate Clock(start: int, polls: nat -> Poll) {
    && start <= polls(0).at
    && forall k: nat :: polls(k).at <= polls(k).stamp <= polls(k).now < polls(k + 1).at
  }

  // ---------------------------------------------------------------- what one inspection shows

  function Selected(changes: seq<Change>): map<string, string> {
    if changes == [] then map[]
    else Selected(changes[..|changes| - 1])[changes[|changes| - 1].service := changes[|changes| - 1].image]
  }

  predicate OnTarget(selected: map<string, string>, rows: seq<Container>) {
    forall i :: 0 <= i < |rows| && rows[i].service in selected ==> rows[i].image == selected[rows[i].service]
  }

  function Unselected(selected: map<string, string>, rows: seq<Container>): set<string> {
    set i | 0 <= i < |rows| && rows[i].service !in selected :: rows[i].id
  }

  predicate Awaiting(selected: map<string, string>, rows: seq<Container>, h: Health) {
    exists i :: 0 <= i < |rows| && rows[i].service in selected && rows[i].health == h
  }

  /** The fingerprint: identity, restarts and start of every updated container without a health status. */
  function Fingerprint(selected: map<string, string>, rows: seq<Container>): multiset<(string, int, int)> {
    if rows == [] then multiset{}
    else
      var row := rows[|rows| - 1];
      Fingerprint(selected, rows[..|rows| - 1])
      + if row.service in selected && row.health.NoHealth? then multiset{(row.id, row.restarts, row.startedAt)} else multiset{}
  }

  lemma {:induction false} FingerprintOfNone(selected: map<string, string>, rows: seq<Container>)
    ensures Fingerprint(selected, rows) == multiset{} <==> !Awaiting(selected, rows, NoHealth)
  {
    if rows != [] {
      var n := |rows| - 1;
      FingerprintOfNone(selected, rows[..n]);
      if i :| 0 <= i < n && rows[i].service in selected && rows[i].health == NoHealth {
        assert rows[..n][i] == rows[i];
      }
      if rows[n].service in selected && rows[n].health.NoHealth? {
        assert (rows[n].id, rows[n].restarts, rows[n].startedAt) in Fingerprint(selected, rows);
      }
    }
  }

  // ---------------------------------------------------------------- what the polls say

  /** What is verified: the changes, the containers of the snapshot they were prepared from, its project. */
  datatype Task = Task(changes: seq<Change>, original: seq<Container>, project: Option<Project>, start: int)

  /** The inspection is accepted, every updated container is on target, and the others are the original ones. */
  ghost predicate Sound(t: Task, polls: nat -> Poll, k: nat) {
    && t.project.Some?
    && !polls(k).cancelled && polls(k).at < t.start + TIMEOUT
    && polls(k).listed && Accepted(t.project.value, polls(k).listing)
    && OnTarget(Selected(t.changes), polls(k).Rows())
    && Unselected(Selected(t.changes), polls(k).Rows()) == Unselected(Selected(t.changes), t.original)
  }

  ghost function Print(t: Task, polls: nat -> Poll, k: nat): multiset<(string, int, int)> {
    Fingerprint(Selected(t.changes), polls(k).Rows())
  }

  /** From poll `j` to poll `k` the fingerprint stayed the same. */
  ghost predicate Constant(t: Task, polls: nat -> Poll, j: nat, k: nat) {
    forall i: nat :: j <= i <= k ==> Print(t, polls, i) == Print(t, polls, k)
  }

  /** Poll `j` was stamped long enough before the comparison of poll `k`, and nothing restarted since. */
  ghost predicate StableSince(t: Task, polls: nat -> Poll, j: nat, k: nat) {
    j <= k && Constant(t, polls, j, k) && polls(k).now - polls(j).stamp >= STABLE
  }

  /** No updated container is still starting, and those without a health status have been stable. */
  ghost predicate Settled(t: Task, polls: nat -> Poll, k: nat) {
    && !Awaiting(Selected(t.changes), polls(k).Rows(), Starting)
    && (Awaiting(Selected(t.changes), polls(k).Rows(), NoHealth) ==> exists j: nat :: StableSince(t, polls, j, k))
  }

  ghost predicate GoesOn(t: Task, polls: nat -> Poll, k: nat) {
    Sound(t, polls, k) && !Settled(t, polls, k) && polls(k).waited
  }

  /** The update is verified at poll `k`: it is the first that settles, and all before it were sound. */
  ghost predicate VerifiedAt(t: Task, polls: nat -> Poll, k: nat) {
    Sound(t, polls, k) && Settled(t, polls, k) && forall j: nat :: j < k ==> GoesOn(t, polls, j)
  }

  // ---------------------------------------------------------------- the age of the fingerprint

  /** The loop's own variable: the stamp of the last change up to poll `k`. */
  ghost function Since(t: Task, polls: nat -> Poll, start: int, k: nat): int {
    if k == 0 then (if Print(t, polls, 0) != multiset{} then polls(0).stamp else start)
    else if Print(t, polls, k) != Print(t, polls, k - 1) then polls(k).stamp
    else Since(t, polls, start, k - 1)
  }

  lemma {:induction false} StampsAscend(start: int, polls: nat -> Poll, j: nat, k: nat)
    requires Clock(start, polls) && j <= k
    ensures polls(j).stamp <= polls(k).stamp
    decreases k
  {
    if j < k {
      StampsAscend(start, polls, j, k - 1);
      assert polls(k - 1).stamp <= polls(k - 1).now < polls(k - 1 + 1).at;
    }
  }

  /** For a fingerprint that is not empty, `Since` is the first stamp of its last constant stretch. */
  lemma {:induction false} SinceIsTheStretch(t: Task, polls: nat -> Poll, start: int, k: nat) returns (j: nat)
    requires Print(t, polls, k) != multiset{}
    ensures j <= k && Constant(t, polls, j, k) && Since(t, polls, start, k) == polls(j).stamp
    ensures j > 0 ==> Print(t, polls, j - 1) != Print(t, polls, k)
    decreases k
  {
    if k == 0 || Print(t, polls, k) != Print(t, polls, k - 1) {
      j := k;
    } else {
      j := SinceIsTheStretch(t, polls, start, k - 1);
    }
  }

  lemma AgeDecides(t: Task, polls: nat -> Poll, start: int, k: nat)
    requires Clock(start, polls) && Print(t, polls, k) != multiset{}
    ensures polls(k).now - Since(t, polls, start, k) >= STABLE <==> exists j: nat :: StableSince(t, polls, j, k)
  {
    var first := SinceIsTheStretch(t, polls, start, k);
    if polls(k).now - Since(t, polls, start, k) >= STABLE {
      assert StableSince(t, polls, first, k);
    }
    if j: nat :| StableSince(t, polls, j, k) {
      if j < first {
        assert false;
      }
      StampsAscend(start, polls, first, j);
    }
  }

  // ---------------------------------------------------------------- the loop

  method SelectChanges(changes: seq<Change>) returns (selected: map<string, string>, results: seq<ServiceResult>)
    ensures selected == Selected(changes) && |results| == |changes|
    ensures forall i :: 0 <= i < |changes| ==> results[i] == ServiceResult(changes[i].service, changes[i].image, "", false)
  {
    selected, results := map[], [];
    for i := 0 to |changes|
      invariant selected == Selected(changes[..i]) && |results| == i
      invariant forall k :: 0 <= k < i ==> results[k] == ServiceResult(changes[k].service, changes[k].image, "", false)
    {
      assert changes[..i + 1][..i] == changes[..i];
      selected := selected[changes[i].service := changes[i].image];
      results := results + [ServiceResult(changes[i].service, changes[i].image, "", false)];
    }
    assert changes[..|changes|] == changes;
  }

  /** The image seen last for a service, or what was seen before. */
  function Seen(rows: seq<Container>, service: string, before: string): string {
    if rows == [] then before
    else if rows[|rows| - 1].service == service then rows[|rows| - 1].image
    else Seen(rows[..|rows| - 1], service, before)
  }

  lemma {:induction false} SeenOnTarget(selected: map<string, string>, rows: seq<Container>, service: string, before: string, i: nat)
    requires OnTarget(selected, rows) && service in selected && i < |rows| && rows[i].service == service
    ensures Seen(rows, service, before) == selected[service]
    decreases |rows|
  {
    var n := |rows| - 1;
    if rows[n].service != service {
      assert forall k :: 0 <= k < n ==> rows[..n][k] == rows[k];
      SeenOnTarget(selected, rows[..n], service, before, i);
    }
  }

  method Observe(results: seq<ServiceResult>, rows: seq<Container>) returns (seen: seq<ServiceResult>)
    ensures |seen| == |results|
    ensures forall i :: 0 <= i < |results| ==> seen[i] == results[i].(actual := Seen(rows, results[i].service, results[i].actual))
  {
    seen := results;
    for i := 0 to |results|
      invariant |seen| == |results|
      invariant forall k :: 0 <= k < i ==> seen[k] == results[k].(actual := Seen(rows, results[k].service, results[k].actual))
      invariant forall k :: i <= k < |results| ==> seen[k] == results[k]
    {
      for j := 0 to |rows|
        invariant |seen| == |results|
        invariant seen[i] == results[i].(actual := Seen(rows[..j], results[i].service, results[i].actual))
        invariant forall k :: 0 <= k < i ==> seen[k] == results[k].(actual := Seen(rows, results[k].service, results[k].actual))
        invariant forall k :: i < k < |results| ==> seen[k] == results[k]
      {
        assert rows[..j + 1][..j] == rows[..j];
        if rows[j].service == seen[i].service {
          seen := seen[i := seen[i].(actual := rows[j].image)];
        }
      }
      assert rows[..|rows|] == rows;
    }
  }

  lemma SameSize(a: set<string>, b: set<string>)
    requires a <= b
    ensures |a| == |b| <==> a == b
  {
    if a != b {
      assert |b - a| > 0 && b == a + (b - a);
      assert |b| == |a| + |b - a|;
    }
  }

  /** What one more row adds. */
  lemma OneMoreRow(selected: map<string, string>, rows: seq<Container>, i: nat)
    requires i < |rows|
    ensures Unselected(selected, rows[..i + 1]) ==
            Unselected(selected, rows[..i]) + if rows[i].service in selected then {} else {rows[i].id}
    ensures OnTarget(selected, rows[..i + 1]) <==>
            OnTarget(selected, rows[..i]) && (rows[i].service in selected ==> rows[i].image == selected[rows[i].service])
    ensures Fingerprint(selected, rows[..i + 1]) == Fingerprint(selected, rows[..i]) +
            if rows[i].service in selected && rows[i].health.NoHealth? then multiset{(rows[i].id, rows[i].restarts, rows[i].startedAt)} else multiset{}
  {
    var more, less := rows[..i + 1], rows[..i];
    assert more[..i] == less;
    assert forall k :: 0 <= k < i ==> more[k] == less[k];
    assert more[i] == rows[i];
  }

  lemma OneMoreAwaiting(selected: map<string, string>, rows: seq<Container>, i: nat, h: Health)
    requires i < |rows|
    ensures Awaiting(selected, rows[..i + 1], h) <==>
            Awaiting(selected, rows[..i], h) || (rows[i].service in selected && rows[i].health == h)
  {
    var more, less := rows[..i + 1], rows[..i];
    assert forall k :: 0 <= k < i ==> more[k] == less[k];
    assert more[i] == rows[i];
  }

  /** The checks on one inspection, row by row. */
  method Examine(selected: map<string, string>, expected: set<string>, rows: seq<Container>)
    returns (sound: bool, pending: bool, unsettled: bool, current: multiset<(string, int, int)>)
    ensures sound <==> OnTarget(selected, rows) && Unselected(selected, rows) == expected
    ensures sound ==> pending == Awaiting(selected, rows, Starting) && unsettled == Awaiting(selected, rows, NoHealth)
    ensures sound ==> current == Fingerprint(selected, rows)
  {
    sound, pending, unsettled, current := false, false, false, multiset{};
    var seen: set<string> := {};
    for i := 0 to |rows|
      invariant OnTarget(selected, rows[..i]) && seen <= expected
      invariant seen == Unselected(selected, rows[..i]) && current == Fingerprint(selected, rows[..i])
      invariant pending == Awaiting(selected, rows[..i], Starting) && unsettled == Awaiting(selected, rows[..i], NoHealth)
    {
      var row := rows[i];
      OneMoreRow(selected, rows, i);
      OneMoreAwaiting(selected, rows, i, Starting);
      OneMoreAwaiting(selected, rows, i, NoHealth);
      if row.service !in selected {
        if row.id !in expected {
          assert row.id in Unselected(selected, rows);
          return;
        }
        seen := seen + {row.id};
      } else {
        if row.image != selected[row.service] {
          return;
        }
        if row.health == Starting {
          pending := true;
        }
        if row.health == NoHealth {
          unsettled := true;
          current := current + multiset{(row.id, row.restarts, row.startedAt)};
        }
      }
    }
    assert rows[..|rows|] == rows;
    SameSize(seen, expected);
    sound := |seen| == |expected|;
  }

  /** A poll that ends the loop without settling rules out every verdict. */
  lemma NeverVerified(t: Task, polls: nat -> Poll, k: nat)
    requires forall j: nat :: j < k ==> GoesOn(t, polls, j)
    requires !Sound(t, polls, k) || (!Settled(t, polls, k) && !polls(k).waited)
    ensures forall m: nat :: !VerifiedAt(t, polls, m)
  {
    forall m: nat ensures !VerifiedAt(t, polls, m) {
      if m < k { assert GoesOn(t, polls, m); }
      if m > k { assert !GoesOn(t, polls, k); }
    }
  }

  lemma SettledByAge(t: Task, polls: nat -> Poll, k: nat, pending: bool, unsettled: bool)
    requires Clock(t.start, polls)
    requires pending == Awaiting(Selected(t.changes), polls(k).Rows(), Starting)
    requires unsettled == Awaiting(Selected(t.changes), polls(k).Rows(), NoHealth)
    ensures Settled(t, polls, k) <==>
            !pending && (!unsettled || polls(k).now - Since(t, polls, t.start, k) >= STABLE)
  {
    FingerprintOfNone(Selected(t.changes), polls(k).Rows());
    if unsettled {
      AgeDecides(t, polls, t.start, k);
    }
  }

  /** The results list the changes. */
  predicate Listed(t: Task, results: seq<ServiceResult>, verified: bool) {
    && |results| == |t.changes|
    && forall i :: 0 <= i < |results| ==>
         results[i].service == t.changes[i].service && results[i].target == t.changes[i].image && results[i].verified == verified
  }

  /** Every listed service that has a container is reported with the image it was to get. */
  predicate Reported(t: Task, results: seq<ServiceResult>, rows: seq<Container>) {
    forall i, r :: 0 <= i < |results| && 0 <= r < |rows| && rows[r].service == results[i].service ==>
      results[i].service in Selected(t.changes) && results[i].actual == Selected(t.changes)[results[i].service]
  }

  datatype Verdict = Fails | Settles | Unsettled

  /** The loop's fingerprint and its age before turn `k`. */
  ghost predicate Tracks(t: Task, polls: nat -> Poll, k: nat, fingerprint: multiset<(string, int, int)>, since: int) {
    if k == 0 then fingerprint == multiset{} && since == t.start
    else fingerprint == Print(t, polls, k - 1) && since == Since(t, polls, t.start, k - 1)
  }

  /** One turn of the loop up to its decision. */
  method Turn(t: Task, polls: nat -> Poll, k: nat, selected: map<string, string>, fingerprint: multiset<(string, int, int)>, since: int, results: seq<ServiceResult>)
    returns (verdict: Verdict, mark: multiset<(string, int, int)>, stamped: int, seen: seq<ServiceResult>)
    requires Clock(t.start, polls) && selected == Selected(t.changes) && t.project.Some?
    requires Tracks(t, polls, k, fingerprint, since) && Listed(t, results, false)
    ensures verdict.Fails? <==> !Sound(t, polls, k)
    ensures verdict.Settles? <==> Sound(t, polls, k) && Settled(t, polls, k)
    ensures Listed(t, seen, false)
    ensures verdict.Settles? ==> Reported(t, seen, polls(k).Rows())
    ensures verdict.Unsettled? ==> Tracks(t, polls, k + 1, mark, stamped)
  {
    verdict, mark, stamped, seen := Fails, fingerprint, since, results;
    var poll := polls(k);
    if poll.cancelled || poll.at >= t.start + TIMEOUT || !poll.listed {
      return;
    }
    var accepted, rows := Inspect(t.project.value, poll.listing);
    seen := Observe(results, rows);
    if !accepted {
      return;
    }
    var sound, pending, unsettled, current := Examine(selected, Unselected(selected, t.original), rows);
    if !sound {
      return;
    }
    if current != fingerprint {
      mark, stamped := current, poll.stamp;
    }
    SettledByAge(t, polls, k, pending, unsettled);
    ObservedTargets(t, results, seen, rows);
    verdict := if !pending && (!unsettled || poll.now - stamped >= STABLE) then Settles else Unsettled;
  }

  /** The changes are what preparation makes of an accepted snapshot of the project. */
  predicate Prepared(t: Task) {
    && t.project.Some? && Counted(t.project.value, t.original)
    && DistinctServices(t.changes) && Grounded(t.changes, t.original)
  }

  /** Every changed service that is to have containers runs the image it was to get. */
  predicate Delivered(t: Task, results: seq<ServiceResult>)
    requires t.project.Some?
  {
    forall i :: 0 <= i < |results| && results[i].service in t.project.value && t.project.value[results[i].service] > 0 ==>
      results[i].service in Selected(t.changes) && results[i].actual == Selected(t.changes)[results[i].service]
  }

  /** Every change is reported with its own image. */
  predicate Achieved(t: Task, results: seq<ServiceResult>) {
    |results| == |t.changes| && forall i :: 0 <= i < |results| ==> results[i].actual == t.changes[i].image
  }

  /** An accepted inspection shows a container of every service that is to have some. */
  lemma ReportedIsDelivered(t: Task, results: seq<ServiceResult>, listing: seq<Row>)
    requires t.project.Some? && Accepted(t.project.value, listing) && Reported(t, results, Visible(listing))
    ensures Delivered(t, results)
  {
    forall i | 0 <= i < |results| && results[i].service in t.project.value && t.project.value[results[i].service] > 0
      ensures results[i].service in Selected(t.changes) && results[i].actual == Selected(t.changes)[results[i].service]
    {
      SomeIsCounted(Visible(listing), results[i].service);
    }
  }

  /** Prepared changes are of services that are to have containers. */
  lemma DeliveredIsAchieved(t: Task, results: seq<ServiceResult>)
    requires Prepared(t) && Listed(t, results, true) && Delivered(t, results)
    ensures Achieved(t, results)
  {
    forall i | 0 <= i < |results| ensures results[i].actual == t.changes[i].image {
      SelectedOnce(t.changes, i);
      SomeIsCounted(t.original, t.changes[i].service);
    }
  }

  /** Verification ends, because every wait brings the deadline nearer, and it succeeds exactly if some poll
      settles after nothing but sound polls. Then every changed service that is to have containers has them,
      on its image; for prepared changes that is every one of them. Otherwise recovery is required. */
  method VerifyUpdate(t: Task, polls: nat -> Poll) returns (results: seq<ServiceResult>, recovery: bool, ghost last: nat)
    requires Clock(t.start, polls)
    ensures !recovery <==> t.changes != [] && exists k: nat :: VerifiedAt(t, polls, k)
    ensures !recovery ==> VerifiedAt(t, polls, last) && Delivered(t, results)
    ensures !recovery && Prepared(t) ==> Achieved(t, results)
    ensures Listed(t, results, !recovery)
  {
    recovery, last := true, 0;
    var selected;
    selected, results := SelectChanges(t.changes);
    if t.project.None? || |selected| == 0 {
      SelectsAll(t.changes);
      return;
    }
    assert t.changes != [];
    results, recovery, last := Watch(t, polls, selected, results);
  }

  /** The polling loop. */
  method Watch(t: Task, polls: nat -> Poll, selected: map<string, string>, listed: seq<ServiceResult>)
    returns (results: seq<ServiceResult>, recovery: bool, ghost last: nat)
    requires Clock(t.start, polls) && selected == Selected(t.changes) && t.project.Some? && Listed(t, listed, false)
    ensures !recovery <==> exists k: nat :: VerifiedAt(t, polls, k)
    ensures !recovery ==> VerifiedAt(t, polls, last) && Delivered(t, results)
    ensures !recovery && Prepared(t) ==> Achieved(t, results)
    ensures Listed(t, results, !recovery)
  {
    results, recovery, last := listed, true, 0;
    var since, fingerprint, k: nat := t.start, multiset{}, 0;
    while true
      invariant Listed(t, results, false) && recovery
      invariant forall j: nat :: j < k ==> GoesOn(t, polls, j)
      invariant Tracks(t, polls, k, fingerprint, since)
      decreases t.start + TIMEOUT - polls(k).at
    {
      var verdict;
      verdict, fingerprint, since, results := Turn(t, polls, k, selected, fingerprint, since, results);
      if verdict.Settles? {
        results := Conclude(t, polls, k, results);
        recovery, last := false, k;
        assert VerifiedAt(t, polls, k);
        return;
      }
      if verdict.Fails? || !polls(k).waited {
        NeverVerified(t, polls, k);
        return;
      }
      k := k + 1;
    }
  }

  /** The successful return. */
  method Conclude(t: Task, polls: nat -> Poll, k: nat, seen: seq<ServiceResult>) returns (results: seq<ServiceResult>)
    requires t.project.Some? && Accepted(t.project.value, polls(k).listing)
    requires Listed(t, seen, false) && Reported(t, seen, polls(k).Rows())
    ensures Listed(t, results, true) && Delivered(t, results) && (Prepared(t) ==> Achieved(t, results))
  {
    results := Confirm(seen);
    ReportedIsDelivered(t, results, polls(k).listing);
    if Prepared(t) {
      DeliveredIsAchieved(t, results);
    }
  }

  method Confirm(results: seq<ServiceResult>) returns (confirmed: seq<ServiceResult>)
    ensures |confirmed| == |results| && forall i :: 0 <= i < |results| ==> confirmed[i] == results[i].(verified := true)
  {
    confirmed := results;
    for i := 0 to |results|
      invariant |confirmed| == |results|
      invariant forall k :: 0 <= k < |results| ==> confirmed[k] == if k < i then results[k].(verified := true) else results[k]
    {
      confirmed := confirmed[i := confirmed[i].(verified := true)];
    }
  }

  lemma {:induction false} SelectsAll(changes: seq<Change>)
    ensures forall i :: 0 <= i < |changes| ==> changes[i].service in Selected(changes)
  {
    if changes != [] {
      SelectsAll(changes[..|changes| - 1]);
      assert forall i :: 0 <= i < |changes| - 1 ==> changes[..|changes| - 1][i] == changes[i];
    }
  }

  lemma ObservedTargets(t: Task, before: seq<ServiceResult>, results: seq<ServiceResult>, rows: seq<Container>)
    requires Listed(t, results, false) && OnTarget(Selected(t.changes), rows)
    requires |before| == |results|
    requires forall i :: 0 <= i < |results| ==> results[i].actual == Seen(rows, results[i].service, before[i].actual)
    ensures Reported(t, results, rows)
  {
    SelectsAll(t.changes);
    forall i, r | 0 <= i < |results| && 0 <= r < |rows| && rows[r].service == results[i].service
      ensures results[i].service in Selected(t.changes) && results[i].actual == Selected(t.changes)[results[i].service]
    {
      assert results[i].service == t.changes[i].service;
      SeenOnTarget(Selected(t.changes), rows, results[i].service, before[i].actual, r);
    }
  }

  // ---------------------------------------------------------------- what the completion accepts

  function Stored(results: seq<ServiceResult>): seq<Tables.Result> {
    seq(|results|, i requires 0 <= i < |results| => Tables.Result(results[i].service, results[i].verified, results[i].actual))
  }

  lemma {:induction false} SelectedOnce(changes: seq<Change>, i: nat)
    requires i < |changes| && DistinctServices(changes)
    ensures changes[i].service in Selected(changes) && Selected(changes)[changes[i].service] == changes[i].image
    decreases |changes|
  {
    var n := |changes| - 1;
    if i < n {
      SelectedOnce(changes[..n], i);
    }
  }

  /** Verified results confirm every change that was stored for the update, so the completion that writes
      the deployment cannot be refused for a missing result. */
  lemma VerifiedIsConfirmed(t: Task, results: seq<ServiceResult>, changes: seq<Tables.Change>)
    requires Listed(t, results, true) && Achieved(t, results)
    requires |changes| == |t.changes| && forall i :: 0 <= i < |changes| ==> t.changes[i] == Change(changes[i].service, changes[i].image)
    ensures Tables.AllVerified(changes, Stored(results))
  {
    forall i | 0 <= i < |changes| ensures Tables.Confirms(Stored(results), changes[i]) {
      assert Stored(results)[i] == Tables.Result(changes[i].service, true, changes[i].image);
    }
  }
}
