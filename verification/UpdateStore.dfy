/** The store behind automatic updates, the job that drives it and the recovery that runs before it. */
module UpdateStore {
  import opened Wrappers
  import opened UpdateTables
  import opened UpdateProtocol
  import opened UpdateSteps
  import opened UpdateRecovery

  lemma {:induction false} SelectStep(images: map<(string, string), Change>, stack: string, changes: seq<Change>, n: nat)
    requires n < |changes|
    ensures Select(images, stack, changes[..n + 1]) ==
            Select(images, stack, changes[..n])[(stack, changes[n].service) := changes[n]]
  {
    assert changes[..n + 1][..n] == changes[..n];
  }

  /** Without repeated services the order of the inserts is no matter: each service gets its row, and a
      row that is already there means a repeated service. */
  lemma {:induction false} FreshRows(images: map<(string, string), Change>, stack: string, changes: seq<Change>, n: nat)
    requires n < |changes| && forall k :: k in images ==> k.0 != stack
    ensures (stack, changes[n].service) in Select(images, stack, changes[..n]) <==>
            exists i :: 0 <= i < n && changes[i].service == changes[n].service
  {
    SelectedRows(images, stack, changes[..n], (stack, changes[n].service));
    if i :| 0 <= i < n && changes[i].service == changes[n].service {
      assert changes[..n][i].service == changes[n].service;
    }
    if Names(changes[..n], changes[n].service) {
      var i :| 0 <= i < n && changes[..n][i].service == changes[n].service;
      assert changes[i].service == changes[n].service;
    }
  }

  lemma PrunedRows(images: map<(string, string), Change>, stack: string, sources: map<string, string>, remove: set<(string, string)>)
    requires forall k :: k in remove <==> Outdated(images, stack, sources, k)
    ensures images - remove == map k | k in images && !Outdated(images, stack, sources, k) :: images[k]
  {
  }

  /** What is left to recover are the unfinished executions and the pending runs. */
  ghost predicate Left(start: Db, rest: set<string>, unfinished: set<string>, byId: set<string>) {
    && (forall id :: id in rest <==> id in unfinished || id in byId)
    && (forall id :: id in rest && Recovering(start, id) <==> id in unfinished)
  }

  lemma EverythingLeft(start: Db, found: string -> seq<Result>, unfinished: set<string>, byId: set<string>)
    requires unfinished == set id | id in start.executions && !start.executions[id].phase.Terminal?
    requires byId == set id | id in start.runs && !start.runs[id].phase.Terminal?
    ensures unfinished + byId == Pending(start) && Left(start, unfinished + byId, unfinished, byId)
    ensures After(start, Pending(start) - (unfinished + byId), found) == start
  {
    assert unfinished + byId == Pending(start);
    assert Pending(start) - Pending(start) == {};
    NothingDone(start, found);
  }

  lemma OneLess(start: Db, rest: set<string>, unfinished: set<string>, byId: set<string>, id: string)
    requires Left(start, rest, unfinished, byId) && id in unfinished
    ensures id in rest && Recovering(start, id) && |rest - {id}| == |rest| - 1
    ensures Left(start, rest - {id}, unfinished - {id}, byId - {id})
  {
  }

  /** One more transaction of recovery, with `rest` still to do. */
  lemma OneMore(start: Db, rest: set<string>, id: string, found: string -> seq<Result>)
    requires Recoverable(start) && rest <= Pending(start) && id in rest
    ensures var d, e := After(start, Pending(start) - rest, found), After(start, Pending(start) - (rest - {id}), found);
            if Recovering(start, id) then RecoverExecution(d, id, found(id)) == Some(e)
            else FinishRun(d, id, Interrupted, RESTARTED) == e
  {
    assert Pending(start) - rest + {id} == Pending(start) - (rest - {id});
    if Recovering(start, id) {
      RecoverStep(start, Pending(start) - rest, id, found);
    } else {
      LeftoverStep(start, Pending(start) - rest, id, found);
    }
  }

  class Store {
    var archived: map<string, bool>
    var policies: map<string, Policy>
    var runs: map<string, Run>
    var executions: map<string, Execution>
    var operations: map<string, Operation>
    var deployments: map<string, Deployment>
    var images: map<(string, string), Change>
    var blocked: bool

    function View(): Db
      reads this
    {
      Db(archived, policies, runs, executions, operations, deployments, images)
    }

    constructor ()
      ensures View() == EMPTY
    {
      archived, policies, runs, executions := map[], map[], map[], map[];
      operations, deployments, images, blocked := map[], map[], map[], false;
    }

    // -------------------------------------------------------------- policies

    method EditPolicy(stack: string, enabled: bool, expression: string, expected: int, next: Option<int>) returns (ok: bool)
      modifies this
      ensures ok == Saves(old(View()), stack, expected, next) && blocked == old(blocked)
      ensures View() == SavePolicy(old(View()), stack, enabled, expression, expected, next)
    {
      if next.None? || expected < 0 {
        return false;
      }
      if stack !in archived || archived[stack] {
        return false;
      }
      if expected == 0 {
        if stack in policies {
          return false;
        }
        policies := policies[stack := Policy(enabled, expression, 1, next.value, "")];
      } else {
        if stack !in policies || policies[stack].revision != expected {
          return false;
        }
        policies := policies[stack := policies[stack].(enabled := enabled, expression := expression, revision := expected + 1, nextRunAt := next.value)];
      }
      ok := true;
    }

    /** All policies are rescheduled, or none: a failed expression rolls the transaction back. */
    method Reset(next: string -> Option<int>) returns (ok: bool)
      modifies this
      ensures ok == Reschedulable(old(View()), next) && blocked == old(blocked)
      ensures View() == ResetAfterStartup(old(View()), next)
    {
      var moved, rest := policies, policies.Keys;
      while rest != {}
        invariant rest <= policies.Keys == moved.Keys
        invariant forall s :: s in policies ==> s in rest || next(policies[s].expression).Some?
        invariant forall s :: s in policies ==>
          moved[s] == if s in rest then policies[s] else policies[s].(nextRunAt := next(policies[s].expression).value)
        decreases |rest|
      {
        var stack :| stack in rest;
        var at := next(policies[stack].expression);
        if at.None? {
          return false;
        }
        moved := moved[stack := policies[stack].(nextRunAt := at.value)];
        rest := rest - {stack};
      }
      policies := moved;
      ok := true;
    }

    // -------------------------------------------------------------- runs

    method AdmitRun(stack: string, listed: Policy, now: int, next: Option<int>, id: string) returns (accepted: bool)
      modifies this
      ensures accepted == Admits(old(View()), stack, listed, now, next, id) && blocked == old(blocked)
      ensures View() == Admit(old(View()), stack, listed, now, next, id)
    {
      if !listed.enabled || listed.paused != "" || listed.nextRunAt == 0 || listed.nextRunAt > now || next.None? {
        return false;
      }
      if !Permits(View(), stack, listed.revision) || policies[stack].nextRunAt != listed.nextRunAt || !Active(View(), stack) {
        return false;
      }
      if id in runs {
        return false;
      }
      var pending := Busy(View(), stack);
      var taken := Taken(View(), stack, listed.nextRunAt);
      policies := policies[stack := policies[stack].(nextRunAt := next.value)];
      var run := Run(stack, listed.revision, listed.nextRunAt, Queued, Undecided, "", "");
      if pending {
        run := run.(phase := Terminal, outcome := Skipped, reason := "overlap");
      }
      if !taken {
        runs := runs[id := run];
      }
      accepted := !taken && !pending;
    }

    method StartChecking(id: string) returns (ok: bool)
      modifies this
      ensures ok == Checks(old(View()), id) && blocked == old(blocked)
      ensures View() == MarkChecking(old(View()), id)
    {
      if id !in runs || !runs[id].phase.Queued? || !Permits(View(), runs[id].stack, runs[id].policyRevision) || !Active(View(), runs[id].stack) {
        return false;
      }
      runs := runs[id := runs[id].(phase := Checking)];
      ok := true;
    }

    method Prepare(id: string, operation: string, changes: seq<Change>) returns (ok: bool)
      modifies this
      ensures ok == Prepares(old(View()), id, operation) && blocked == old(blocked)
      ensures View() == SavePrepared(old(View()), id, operation, changes)
    {
      if id !in runs || !(runs[id].phase.Queued? || runs[id].phase.Checking?) || !Permits(View(), runs[id].stack, runs[id].policyRevision) {
        return false;
      }
      if id in executions || operation !in operations || exists x :: x in executions && executions[x].operation == operation {
        return false; // the insert fails and the run's update is rolled back
      }
      runs := runs[id := runs[id].(phase := Prepared, operation := operation)];
      executions := executions[id := Execution(operation, Prepared, changes, [])];
      ok := true;
    }

    method Enter(id: string, revision: int) returns (ok: bool)
      modifies this
      ensures ok == Applies(old(View()), id, revision) && blocked == old(blocked)
      ensures View() == MarkApplying(old(View()), id, revision)
    {
      if !Applies(View(), id, revision) {
        return false;
      }
      runs := runs[id := runs[id].(phase := Applying)];
      if id in executions && executions[id].phase.Prepared? {
        executions := executions[id := executions[id].(phase := Applying)];
      }
      ok := true;
    }

    method Verify(id: string)
      modifies this
      ensures View() == MarkVerifying(old(View()), id) && blocked == old(blocked)
    {
      if id in runs && runs[id].phase.Applying? {
        runs := runs[id := runs[id].(phase := Verifying)];
      }
      if id in executions && executions[id].phase.Applying? {
        executions := executions[id := executions[id].(phase := Verifying)];
      }
    }

    method Finish(id: string, outcome: Outcome, reason: string)
      modifies this
      ensures View() == FinishRun(old(View()), id, outcome, reason) && blocked == old(blocked)
    {
      if id !in runs || runs[id].phase.Terminal? {
        return;
      }
      runs := runs[id := runs[id].(phase := Terminal, outcome := outcome, reason := reason)];
      if id in executions && executions[id].phase.Prepared? {
        executions := executions[id := executions[id].(phase := Terminal)];
      }
    }

    // -------------------------------------------------------------- completion

    /** The two loops over changes and results: image rows to write, or nothing when a result is missing. */
    method Confirm(stack: string, changes: seq<Change>, results: seq<Result>) returns (selected: Option<map<(string, string), Change>>)
      ensures selected == if AllVerified(changes, results) then Some(Select(images, stack, changes)) else None
    {
      var rows := images;
      for i := 0 to |changes|
        invariant forall k :: 0 <= k < i ==> Confirms(results, changes[k])
        invariant rows == Select(images, stack, changes[..i])
      {
        var verified := false;
        for j := 0 to |results|
          invariant verified <==> exists k :: 0 <= k < j && results[k] == Result(changes[i].service, true, changes[i].image)
        {
          if results[j].service == changes[i].service && results[j].verified && results[j].image == changes[i].image {
            verified := true;
          }
        }
        if !verified {
          assert !Confirms(results, changes[i]);
          return None;
        }
        SelectStep(images, stack, changes, i);
        rows := rows[(stack, changes[i].service) := changes[i]];
      }
      assert changes[..|changes|] == changes;
      selected := Some(rows);
    }

    method CompleteOwn(operation: string, status: Status, c: Completion) returns (ok: bool)
      modifies this
      ensures ok == CompleteUpdate(old(View()), operation, status, c).Some? && blocked == old(blocked)
      ensures View() == Else(CompleteUpdate(old(View()), operation, status, c), old(View()))
    {
      if c.run !in executions || executions[c.run].operation != operation {
        return false;
      }
      if executions[c.run].phase.Terminal? {
        return true;
      }
      if !Mutating(executions[c.run].phase) || operation !in operations {
        return false;
      }
      if c.operation != operation || c.stack != operations[operation].scope || operation in deployments || c.stack !in archived {
        return false;
      }
      var outcome, selected := Unsuccessful, images;
      if status.Succeeded? && c.succeeded && c.pause == "" {
        var rows := Confirm(c.stack, executions[c.run].changes, c.results);
        if rows.None? {
          return false;
        }
        outcome, selected := Updated, rows.value;
      }
      Write(operation, c, outcome, selected);
      ok := true;
    }

    /** The statements of a completion that passed its checks. */
    method Write(operation: string, c: Completion, outcome: Outcome, selected: map<(string, string), Change>)
      requires c.run in executions
      modifies this
      ensures blocked == old(blocked)
      ensures View() == (if c.pause != "" then Pause(old(View()), c.stack, c.pause) else old(View())).(
        deployments := old(deployments)[operation := Deployment(c.stack, c.succeeded, c.code)], images := selected,
        executions := old(executions)[c.run := old(executions[c.run]).(phase := Terminal, results := c.results)],
        runs := if c.run !in old(runs) then old(runs)
                else old(runs)[c.run := old(runs)[c.run].(phase := Terminal, reason := c.pause, outcome := outcome)])
    {
      deployments := deployments[operation := Deployment(c.stack, c.succeeded, c.code)];
      images := selected;
      if c.pause != "" && c.stack in policies {
        policies := policies[c.stack := policies[c.stack].(paused := c.pause, revision := policies[c.stack].revision + 1)];
      }
      executions := executions[c.run := executions[c.run].(phase := Terminal, results := c.results)];
      if c.run in runs {
        runs := runs[c.run := runs[c.run].(phase := Terminal, outcome := outcome, reason := c.pause)];
      }
    }

    method Complete(operation: string, status: Status, c: Option<Completion>) returns (ok: bool)
      modifies this
      ensures ok == CompleteOperation(old(View()), operation, status, c).Some? && blocked == old(blocked)
      ensures View() == Else(CompleteOperation(old(View()), operation, status, c), old(View()))
    {
      if operation !in operations {
        return false;
      }
      if c.Some? {
        ok := CompleteOwn(operation, status, c.value);
        if !ok {
          return;
        }
      }
      operations := operations[operation := operations[operation].(status := status)];
      ok := true;
    }

    // -------------------------------------------------------------- images

    method PruneRows(stack: string, sources: map<string, string>)
      modifies this
      ensures View() == PruneImages(old(View()), stack, sources) && blocked == old(blocked)
    {
      var remove, rest := {}, images.Keys;
      while rest != {}
        invariant rest <= images.Keys && View() == old(View()) && blocked == old(blocked)
        invariant forall k :: k in remove ==> k !in rest && Outdated(images, stack, sources, k)
        invariant forall k :: Outdated(images, stack, sources, k) ==> k in rest || k in remove
        decreases |rest|
      {
        var k :| k in rest;
        if Outdated(images, stack, sources, k) {
          remove := remove + {k};
        }
        rest := rest - {k};
      }
      PrunedRows(images, stack, sources, remove);
      images := images - remove;
    }

    /** The rows of a resumed stack; a repeated service violates the primary key. */
    method Insert(rows: map<(string, string), Change>, stack: string, changes: seq<Change>) returns (inserted: Option<map<(string, string), Change>>)
      requires forall k :: k in rows ==> k.0 != stack
      ensures inserted == if Distinct(changes) then Some(Select(rows, stack, changes)) else None
    {
      var r := rows;
      for i := 0 to |changes|
        invariant r == Select(rows, stack, changes[..i])
        invariant forall a, b :: 0 <= a < b < i ==> changes[a].service != changes[b].service
      {
        FreshRows(rows, stack, changes, i);
        if (stack, changes[i].service) in r {
          return None;
        }
        SelectStep(rows, stack, changes, i);
        r := r[(stack, changes[i].service) := changes[i]];
      }
      assert changes[..|changes|] == changes;
      inserted := Some(r);
    }

    method ResumeUpdates(stack: string, revision: int, next: Option<int>, operation: string, selections: seq<Change>) returns (ok: bool)
      modifies this
      ensures ok == Resumes(old(View()), stack, revision, next, operation, selections) && blocked == old(blocked)
      ensures View() == ResumePolicy(old(View()), stack, revision, next, operation, selections)
    {
      if stack !in policies || policies[stack].revision != revision || policies[stack].paused == "" || next.None? {
        return false;
      }
      if operation in operations || operation in deployments || stack !in archived {
        return false;
      }
      var rows := Insert(Without(images, stack), stack, selections);
      if rows.None? {
        return false;
      }
      policies := policies[stack := policies[stack].(paused := "", revision := revision + 1, nextRunAt := next.value)];
      operations := operations[operation := Operation(Succeeded, stack, None)];
      deployments := deployments[operation := Deployment(stack, true, "")];
      images := rows.value;
      ok := true;
    }

    // -------------------------------------------------------------- recovery

    method RecoverOne(id: string, results: seq<Result>) returns (ok: bool)
      modifies this
      ensures ok == RecoverExecution(old(View()), id, results).Some? && blocked == old(blocked)
      ensures View() == Else(RecoverExecution(old(View()), id, results), old(View()))
    {
      if id !in executions {
        return false;
      }
      var e := executions[id];
      if e.phase.Terminal? {
        return true;
      }
      if e.phase.Prepared? {
        executions := executions[id := e.(phase := Terminal)];
        if id in runs {
          runs := runs[id := runs[id].(phase := Terminal, outcome := Interrupted, reason := RESTARTED)];
        }
        if e.operation in operations {
          operations := operations[e.operation := operations[e.operation].(status := Cancelled)];
        }
        return true;
      }
      if !Mutating(e.phase) || e.operation !in operations {
        return false;
      }
      ok := Complete(e.operation, Failed, Some(Interruption(View(), id, e.operation, results)));
    }

    method FailOperations()
      modifies this
      ensures View() == FailInterrupted(old(View())) && blocked == old(blocked)
    {
      var failed, rest := operations, operations.Keys;
      while rest != {}
        invariant rest <= operations.Keys == failed.Keys
        invariant forall o :: o in operations ==>
          failed[o] == if o !in rest && Unfinished(operations[o].status) && !Awaited(View(), o)
                       then operations[o].(status := Failed) else operations[o]
        decreases |rest|
      {
        var o :| o in rest;
        if Unfinished(operations[o].status) && !Awaited(View(), o) {
          failed := failed[o := operations[o].(status := Failed)];
        }
        rest := rest - {o};
      }
      operations := failed;
    }

    /** One turn of that loop; the transaction finds all it needs. */
    method RecoverNext(ghost start: Db, ghost rest: set<string>, id: string, found: string -> seq<Result>)
      requires Recoverable(start) && rest <= Pending(start) && id in rest && Recovering(start, id)
      requires View() == After(start, Pending(start) - rest, found)
      modifies this
      ensures View() == After(start, Pending(start) - (rest - {id}), found) && blocked == old(blocked)
    {
      OneMore(start, rest, id, found);
      var recovered := RecoverOne(id, found(id));
      assert recovered;
    }

    /** The loop over unfinished executions, each with its run; what is left are the pending runs without one.
        `reliable` is the number of transactions after which the store stops answering. */
    method RecoverAll(ghost start: Db, found: string -> seq<Result>, reliable: nat) returns (ok: bool, rest: set<string>, left: nat)
      requires View() == start && Recoverable(start)
      modifies this
      ensures rest <= Pending(start) && View() == After(start, Pending(start) - rest, found) && blocked == old(blocked)
      ensures ok ==> forall id :: id in rest ==> !Recovering(start, id)
      ensures left + |Pending(start)| == reliable + |rest| && (!ok ==> left == 0 && rest != {})
    {
      var unfinished := set id | id in executions && !executions[id].phase.Terminal?;
      var byId := set id | id in runs && !runs[id].phase.Terminal?;
      EverythingLeft(start, found, unfinished, byId);
      ok, rest, left := RecoverEach(start, found, reliable, unfinished, byId);
    }

    method RecoverEach(ghost start: Db, found: string -> seq<Result>, reliable: nat, executions0: set<string>, runs0: set<string>)
      returns (ok: bool, rest: set<string>, left: nat)
      requires Recoverable(start) && Left(start, executions0 + runs0, executions0, runs0) && executions0 + runs0 == Pending(start)
      requires View() == After(start, Pending(start) - (executions0 + runs0), found)
      modifies this
      ensures rest <= Pending(start) && View() == After(start, Pending(start) - rest, found) && blocked == old(blocked)
      ensures ok ==> forall id :: id in rest ==> !Recovering(start, id)
      ensures left + |Pending(start)| == reliable + |rest| && (!ok ==> left == 0 && rest != {})
    {
      var unfinished, byId := executions0, runs0;
      rest, left := unfinished + byId, reliable;
      while unfinished != {}
        invariant rest <= Pending(start) && View() == After(start, Pending(start) - rest, found) && blocked == old(blocked)
        invariant Left(start, rest, unfinished, byId)
        invariant left + |Pending(start)| == reliable + |rest|
        decreases |unfinished|
      {
        var id :| id in unfinished;
        if left == 0 {
          return false, rest, left;
        }
        OneLess(start, rest, unfinished, byId, id);
        RecoverNext(start, rest, id, found);
        unfinished, byId, rest, left := unfinished - {id}, byId - {id}, rest - {id}, left - 1;
      }
      assert rest == byId;
      ok := true;
    }

    /** The loop over the runs that are left. */
    method FinishAll(ghost start: Db, found: string -> seq<Result>, byId: set<string>, reliable: nat) returns (ok: bool, rest: set<string>)
      requires Recoverable(start) && byId <= Pending(start) && View() == After(start, Pending(start) - byId, found)
      requires forall id :: id in byId ==> !Recovering(start, id)
      modifies this
      ensures rest <= byId && View() == After(start, Pending(start) - rest, found) && blocked == old(blocked)
      ensures ok <==> rest == {}
      ensures |byId| <= reliable ==> ok
    {
      rest := byId;
      var left := reliable;
      while rest != {}
        invariant rest <= byId && View() == After(start, Pending(start) - rest, found) && blocked == old(blocked)
        invariant left + |byId| == reliable + |rest|
        decreases |rest|
      {
        var id :| id in rest;
        if left == 0 {
          return false, rest;
        }
        OneMore(start, rest, id, found);
        Finish(id, Interrupted, RESTARTED);
        rest, left := rest - {id}, left - 1;
      }
      ok := true;
    }

    /** Recovery. `found` is what the runtime shows of each execution's services. Whatever happens, every
        transaction that ran has advanced the one recovery; without an error it is complete, and updates
        are unblocked. */
    method Reconcile(found: string -> seq<Result>, reliable: nat) returns (ok: bool, rest: set<string>)
      requires Recoverable(View())
      modifies this
      ensures rest <= Pending(old(View())) && View() == After(old(View()), Pending(old(View())) - rest, found)
      ensures ok <==> rest == {}
      ensures |Pending(old(View()))| <= reliable ==> ok
      ensures blocked == !ok
    {
      ghost var start := View();
      var left;
      blocked := true;
      ok, rest, left := RecoverAll(start, found, reliable);
      if !ok {
        return;
      }
      ok, rest := FinishAll(start, found, rest, left);
      blocked := !ok;
    }

    // -------------------------------------------------------------- the job

    /** The first half of the job of an accepted update, against a store that answers: it lets the runtime
        be changed exactly if the policy still permits the run and the stack is not archived. */
    method EnterMutation(id: string, operation: string, changes: seq<Change>) returns (entered: bool)
      requires id in runs && Ok(Alone(View(), id, Ready(operation)))
      modifies this
      ensures entered <==> Permits(old(View()), old(runs[id]).stack, old(runs[id]).policyRevision) && Active(old(View()), old(runs[id]).stack)
      ensures Ok(Alone(View(), id, if entered then Changing(operation) else Closing(operation)))
      ensures entered ==> id in executions && executions[id] == Execution(operation, Applying, changes, [])
      ensures !entered ==> id in runs && runs[id].phase.Terminal? && runs[id].outcome.Skipped?
      ensures policies == old(policies) && images == old(images) && deployments == old(deployments) && archived == old(archived)
      ensures operations == old(operations) && id in runs && runs[id].stack == old(runs[id]).stack
    {
      var revision := runs[id].policyRevision;
      ReadyPrepares(View(), id, operation);
      PrepareOk(View(), id, operation, changes);
      var saved := Prepare(id, operation, changes);
      if !saved {
        Finish(id, Skipped, "intent_not_saved");
        return false;
      }
      EnterOk(View(), id, operation);
      entered := Enter(id, revision);
      if !entered {
        Finish(id, Skipped, "policy_changed");
      }
    }

    /** The second half: what the runtime reports is completed together with the operation. A mutation
        that failed, or could not be verified, pauses the policy; one reported verified is refused,
        and left for recovery, unless the results confirm every change. */
    method Conclude(id: string, operation: string, applied: bool, verified: bool, results: seq<Result>) returns (closed: bool)
      requires id in runs && id in executions && Ok(Alone(View(), id, Changing(operation)))
      modifies this
      ensures Coherent(View())
      ensures id in runs && id in executions && runs[id].stack == old(runs[id]).stack && executions[id].changes == old(executions[id]).changes
      ensures closed <==> (applied && verified ==> AllVerified(executions[id].changes, results))
      ensures closed ==> operation in old(operations) && operations == old(operations)[operation := old(operations)[operation].(
                           status := if applied && verified then Succeeded else Failed)]
      ensures closed ==> runs[id].phase.Terminal? && executions[id].phase.Terminal? && executions[id].results == results
      ensures !closed ==> runs[id].phase.Verifying? && images == old(images) && deployments == old(deployments) && policies == old(policies)
      ensures closed && applied && verified ==>
                && runs[id].outcome.Updated? && images == Select(old(images), runs[id].stack, executions[id].changes)
                && policies == old(policies) && deployments == old(deployments)[operation := Deployment(runs[id].stack, true, "")]
      ensures !(applied && verified) ==>
                && runs[id].outcome.Unsuccessful? && images == old(images)
                && runs[id].stack in old(policies)
                && policies == old(policies)[runs[id].stack := old(policies)[runs[id].stack].(
                     paused := RECOVERY, revision := old(policies)[runs[id].stack].revision + 1)]
                && deployments == old(deployments)[operation := Deployment(runs[id].stack, false, "auto_update_failed")]
    {
      ChangedOk(View(), id, operation, applied);
      assert Row(Alone(View(), id, Changing(operation)), id);
      if applied {
        Verify(id);
      }
      closed := Settle(id, operation, applied, verified, results);
    }

    method Settle(id: string, operation: string, applied: bool, verified: bool, results: seq<Result>) returns (closed: bool)
      requires id in runs && id in executions && Ok(Alone(View(), id, Observing(operation, !applied)))
      modifies this
      ensures Coherent(View())
      ensures closed <==> (applied && verified ==> AllVerified(old(executions[id]).changes, results))
      ensures !closed ==> View() == old(View())
      ensures closed ==> old(runs[id]).stack in old(policies) && operation in old(operations)
      ensures closed ==> View() == Concluded(old(View()), id, operation, !applied || !verified, results)
    {
      var failed := !applied || !verified;
      ObservedCompletes(View(), id, operation, !applied, failed, results);
      CompleteOk(View(), id, operation, !applied, verified, results);
      ConcludedIs(View(), id, operation, failed, results);
      closed := Complete(operation, if failed then Failed else Succeeded, Some(Report(View(), id, operation, failed, results)));
    }
  }

  /** The tables after a job's own completion. */
  function Concluded(db: Db, id: string, operation: string, failed: bool, results: seq<Result>): Db
    requires id in db.runs && id in db.executions && db.runs[id].stack in db.policies && operation in db.operations
  {
    var stack, policy := db.runs[id].stack, db.policies[db.runs[id].stack];
    Db(db.archived,
       if failed then db.policies[stack := policy.(paused := RECOVERY, revision := policy.revision + 1)] else db.policies,
       db.runs[id := db.runs[id].(phase := Terminal, outcome := if failed then Unsuccessful else Updated, reason := if failed then RECOVERY else "")],
       db.executions[id := db.executions[id].(phase := Terminal, results := results)],
       db.operations[operation := db.operations[operation].(status := if failed then Failed else Succeeded)],
       db.deployments[operation := Deployment(stack, !failed, if failed then "auto_update_failed" else "")],
       if failed then db.images else Select(db.images, stack, db.executions[id].changes))
  }

  lemma ConcludedIs(db: Db, id: string, operation: string, failed: bool, results: seq<Result>)
    requires id in db.runs && id in db.executions && db.runs[id].stack in db.policies && operation in db.operations
    requires !db.executions[id].phase.Terminal?
    ensures var status, c := if failed then Failed else Succeeded, Report(db, id, operation, failed, results);
            CompleteOperation(db, operation, status, Some(c)) ==
            if Completes(db, operation, status, c) then Some(Concluded(db, id, operation, failed, results)) else None
  {
  }

  // ---------------------------------------------------------------- a job alone with the tables

  /** Nobody is at work, and no run is torn from its execution. */
  ghost predicate Coherent(db: Db) {
    Ok(System(db, map[], {}))
  }

  function Alone(db: Db, id: string, w: Worker): System {
    System(db, map[id := w], {})
  }

  /** A job that is ready to save its intent can, unless the policy no longer permits the run. */
  lemma ReadyPrepares(db: Db, id: string, operation: string)
    requires id in db.runs && Ok(Alone(db, id, Ready(operation)))
    ensures Prepares(db, id, operation) <==> Permits(db, db.runs[id].stack, db.runs[id].policyRevision)
    ensures db.runs[id].phase.Checking? && id !in db.executions
  {
    var s := Alone(db, id, Ready(operation));
    assert Row(s, id);
    forall x | x in db.executions ensures db.executions[x].operation != operation {
      assert Row(s, x);
    }
  }

  lemma PrepareOk(db: Db, id: string, operation: string, changes: seq<Change>)
    requires Ok(Alone(db, id, Ready(operation))) && id in db.runs
    ensures if Prepares(db, id, operation) then Ok(Alone(SavePrepared(db, id, operation, changes), id, Saved(operation)))
            else Ok(Alone(FinishRun(db, id, Skipped, "intent_not_saved"), id, Closing(operation)))
  {
    var s := Alone(db, id, Ready(operation));
    var t := Apply(s, UpdateProtocol.Step.Prepare(id, changes, Took));
    StepKeeps(s, UpdateProtocol.Step.Prepare(id, changes, Took));
    if Prepares(db, id, operation) {
      assert t == Alone(SavePrepared(db, id, operation, changes), id, Saved(operation));
    } else {
      GivingUpOk(db, id, operation, "intent_not_saved", t);
    }
  }

  lemma GivingUpOk(db: Db, id: string, operation: string, reason: string, t: System)
    requires Ok(t) && t.db == db && t.torn == {} && t.workers == map[id := GivingUp(Some(operation), Skipped, reason)] && id in db.runs
    ensures Ok(Alone(FinishRun(db, id, Skipped, reason), id, Closing(operation)))
  {
    StepKeeps(t, UpdateProtocol.Step.Finish(id, Took));
    assert Apply(t, UpdateProtocol.Step.Finish(id, Took)) == Alone(FinishRun(db, id, Skipped, reason), id, Closing(operation));
  }

  lemma EnterOk(db: Db, id: string, operation: string)
    requires Ok(Alone(db, id, Saved(operation))) && id in db.runs
    ensures if Applies(db, id, db.runs[id].policyRevision)
            then Ok(Alone(MarkApplying(db, id, db.runs[id].policyRevision), id, Changing(operation)))
            else Ok(Alone(FinishRun(db, id, Skipped, "policy_changed"), id, Closing(operation)))
  {
    var s := Alone(db, id, Saved(operation));
    var t := Apply(s, UpdateProtocol.Step.EnterMutation(id, Took));
    StepKeeps(s, UpdateProtocol.Step.EnterMutation(id, Took));
    if Applies(db, id, db.runs[id].policyRevision) {
      assert t == Alone(MarkApplying(db, id, db.runs[id].policyRevision), id, Changing(operation));
    } else {
      GivingUpOk(db, id, operation, "policy_changed", t);
    }
  }

  lemma ChangedOk(db: Db, id: string, operation: string, applied: bool)
    requires Ok(Alone(db, id, Changing(operation))) && id in db.runs
    ensures Ok(Alone(if applied then MarkVerifying(db, id) else db, id, Observing(operation, !applied)))
  {
    var s := Alone(db, id, Changing(operation));
    StepKeeps(s, UpdateProtocol.Step.Changed(id, applied, Took));
    assert Apply(s, UpdateProtocol.Step.Changed(id, applied, Took)) ==
           Alone(if applied then MarkVerifying(db, id) else db, id, Observing(operation, !applied));
  }

  /** Nothing but a missing confirmation can refuse the completion of a job's own mutation. */
  lemma ObservedCompletes(db: Db, id: string, operation: string, unapplied: bool, failed: bool, results: seq<Result>)
    requires Ok(Alone(db, id, Observing(operation, unapplied))) && id in db.runs
    ensures id in db.executions && Mutating(db.executions[id].phase) && db.runs[id].phase == db.executions[id].phase
    ensures db.runs[id].stack in db.policies && operation in db.operations
    ensures Completes(db, operation, if failed then Failed else Succeeded, Report(db, id, operation, failed, results)) <==>
            (!failed ==> AllVerified(db.executions[id].changes, results))
  {
    assert Row(Alone(db, id, Observing(operation, unapplied)), id);
    assert DeploymentOk(db, operation);
  }

  lemma CompleteOk(db: Db, id: string, operation: string, unapplied: bool, verified: bool, results: seq<Result>)
    requires Ok(Alone(db, id, Observing(operation, unapplied))) && id in db.runs
    ensures var failed := unapplied || !verified;
            Coherent(Else(CompleteOperation(db, operation, if failed then Failed else Succeeded,
                                            Some(Report(db, id, operation, failed, results))), db))
  {
    var s := Alone(db, id, Observing(operation, unapplied));
    var step := UpdateProtocol.Step.Complete(id, verified, results, Took);
    StepKeeps(s, step);
    CompletesAlone(db, id, operation, unapplied, verified, results);
  }

  lemma CompletesAlone(db: Db, id: string, operation: string, unapplied: bool, verified: bool, results: seq<Result>)
    requires id in db.runs
    ensures var failed := unapplied || !verified;
            Apply(Alone(db, id, Observing(operation, unapplied)), UpdateProtocol.Step.Complete(id, verified, results, Took)) ==
            System(Else(CompleteOperation(db, operation, if failed then Failed else Succeeded,
                                          Some(Report(db, id, operation, failed, results))), db), map[], {})
  {
    var s := Alone(db, id, Observing(operation, unapplied));
    assert s.workers - {id} == map[];
  }
}
