/** What a start-up after a crash makes of every row, said of the rows themselves. */
module UpdateOutcomes {
  import opened Wrappers
  import opened UpdateTables
  import opened UpdateProtocol
  import opened UpdateSteps
  import opened UpdateRecovery
  import opened UpdateExample

  /** The execution of the run is pending, in a phase in which the runtime may have been changed. */
  predicate Mutates(db: Db, id: string) {
    id in db.executions && (db.executions[id].phase == Applying || db.executions[id].phase == Verifying)
  }

  predicate Pends(db: Db, id: string) {
    id in db.executions && db.executions[id].phase != Terminal
  }

  /** A run cut off ends as failed if it may have changed the runtime, and as interrupted otherwise; a finished
      one keeps its row, unless a lost commit left its execution pending. */
  predicate RunEnds(db: Db, next: Db, id: string) {
    && (id in next.runs <==> id in db.runs)
    && (id in db.runs ==>
          next.runs[id] ==
          if Mutates(db, id) then db.runs[id].(phase := Terminal, outcome := Unsuccessful, reason := "interrupted_update")
          else if db.runs[id].phase != Terminal || Pends(db, id)
          then db.runs[id].(phase := Terminal, outcome := Interrupted, reason := "restart_before_mutation")
          else db.runs[id])
  }

  /** A pending execution ends, and one that may have changed the runtime with what was found. */
  predicate ExecutionEnds(db: Db, next: Db, found: string -> seq<Result>, id: string) {
    && (id in next.executions <==> id in db.executions)
    && (id in db.executions ==>
          && next.executions[id].phase == Terminal && next.executions[id].operation == db.executions[id].operation
          && next.executions[id].changes == db.executions[id].changes
          && next.executions[id].results == if Mutates(db, id) then found(id) else db.executions[id].results)
  }

  predicate CutOff(db: Db, o: string) {
    o in db.operations && (db.operations[o].status == Waiting || db.operations[o].status == Running)
  }

  predicate MutatesFor(db: Db, o: string) {
    exists id :: id in db.executions && Mutates(db, id) && db.executions[id].operation == o
  }

  predicate PendsFor(db: Db, o: string) {
    exists id :: id in db.executions && Pends(db, id) && db.executions[id].operation == o
  }

  /** An operation for which nothing is pending fails if it was cut off, and keeps its row otherwise. One with a
      pending execution is cancelled if nothing was changed for it, and fails if something may have been. */
  predicate OperationEnds(db: Db, next: Db, o: string) {
    && (o in next.operations <==> o in db.operations)
    && (o in db.operations ==>
          && next.operations[o].scope == db.operations[o].scope && next.operations[o].owner == db.operations[o].owner
          && next.operations[o].status ==
             if MutatesFor(db, o) then Failed
             else if PendsFor(db, o) then Cancelled
             else if CutOff(db, o) then Failed
             else db.operations[o].status)
  }

  /** A policy changes exactly if its stack has mutating executions: it is paused, by one revision for each. */
  predicate PolicyEnds(db: Db, next: Db, stack: string) {
    var mutating := set id | id in db.runs && Mutates(db, id) && db.runs[id].stack == stack;
    && (stack in next.policies <==> stack in db.policies)
    && (stack in db.policies ==>
          && next.policies[stack].enabled == db.policies[stack].enabled && next.policies[stack].expression == db.policies[stack].expression
          && next.policies[stack].nextRunAt == db.policies[stack].nextRunAt
          && next.policies[stack].revision == db.policies[stack].revision + |mutating|
          && next.policies[stack].paused == if mutating == {} then db.policies[stack].paused else "interrupted_update")
  }

  /** Failing the interrupted operations, whenever it is done, spares those for which an execution is pending. */
  lemma FailingIsExact(db: Db, o: string)
    ensures var next := FailInterrupted(db);
            && next == db.(operations := next.operations) && (o in next.operations <==> o in db.operations)
            && (o in db.operations ==>
                  next.operations[o] == if CutOff(db, o) && !PendsFor(db, o) then db.operations[o].(status := Failed) else db.operations[o])
  {
    assert PendsFor(db, o) <==> Awaited(db, o);
  }

  lemma RunEndsSo(db: Db, found: string -> seq<Result>, id: string)
    requires Recoverable(db)
    ensures RunEnds(db, Startup(db, found), id)
  {
    assert Sound(db, id);
    assert Startup(db, found).runs == RunsAfter(db, Pending(db));
  }

  lemma ExecutionEndsSo(db: Db, found: string -> seq<Result>, id: string)
    requires Recoverable(db)
    ensures ExecutionEnds(db, Startup(db, found), found, id)
  {
    assert Sound(db, id);
    assert Startup(db, found).executions == ExecutionsAfter(db, Pending(db), found);
  }

  lemma PendingIsConcerned(db: Db, o: string)
    requires Recoverable(db)
    ensures Concerned(db, Pending(db), o) <==> PendsFor(db, o)
  {
    AwaitedIsConcerned(db, o);
  }

  lemma MutatingIsDeployed(db: Db, o: string)
    requires Recoverable(db)
    ensures Deployed(db, Pending(db), o) <==> MutatesFor(db, o)
  {
    DeploysTheMutated(db, o);
  }

  lemma OperationEndsSo(db: Db, found: string -> seq<Result>, o: string)
    requires Recoverable(db)
    ensures OperationEnds(db, Startup(db, found), o)
  {
    if o in db.operations {
      FailingFirstOperation(db, found, o);
      PendingIsConcerned(db, o);
      MutatingIsDeployed(db, o);
      StatusEnds(db, o);
      assert Startup(db, found).operations[o] == OperationsAfter(FailInterrupted(db), Pending(db))[o];
    }
  }

  lemma StatusEnds(db: Db, o: string)
    requires Recoverable(db) && o in db.operations
    requires (Concerned(db, Pending(db), o) <==> PendsFor(db, o)) && (Deployed(db, Pending(db), o) <==> MutatesFor(db, o))
    ensures var next := OperationsAfter(FailInterrupted(db), Pending(db));
            && o in next && next[o].scope == db.operations[o].scope && next[o].owner == db.operations[o].owner
            && next[o].status == if MutatesFor(db, o) then Failed
                                 else if PendsFor(db, o) then Cancelled
                                 else if CutOff(db, o) then Failed
                                 else db.operations[o].status
  {
    AwaitedIsConcerned(db, o);
    var f := FailInterrupted(db);
    assert Concerned(f, Pending(db), o) <==> Concerned(db, Pending(db), o);
    assert Deployed(f, Pending(db), o) <==> Deployed(db, Pending(db), o);
  }

  lemma PolicyEndsSo(db: Db, found: string -> seq<Result>, stack: string)
    requires Recoverable(db)
    ensures PolicyEnds(db, Startup(db, found), stack)
  {
    SuspendsExactlyTheMutated(db, found, stack, "");
    assert MutatedOf(db, stack) == set id | id in db.runs && Mutates(db, id) && db.runs[id].stack == stack;
  }

  /** From every reachable state, lost commits included, a crash and a start-up end every row as it should. */
  lemma EveryRowEnds(steps: seq<Step>, found: string -> seq<Result>, id: string, o: string, stack: string)
    ensures var db, next := Reached(steps + [Crash]).db, Startup(Reached(steps + [Crash]).db, found);
            && RunEnds(db, next, id) && ExecutionEnds(db, next, found, id)
            && OperationEnds(db, next, o) && PolicyEnds(db, next, stack)
            && next.archived == db.archived && next.images == db.images
  {
    EveryCrashIsRecovered(steps, found);
    var db := Reached(steps + [Crash]).db;
    RunEndsSo(db, found, id);
    ExecutionEndsSo(db, found, id);
    OperationEndsSo(db, found, o);
    PolicyEndsSo(db, found, stack);
  }

  lemma SuccessEnds(db: Db, next: Db, o: string)
    requires OperationEnds(db, next, o) && o in db.operations
    ensures next.operations[o].status == Succeeded <==> db.operations[o].status == Succeeded && !PendsFor(db, o)
  {
    if MutatesFor(db, o) {
      var id :| id in db.executions && Mutates(db, id) && db.executions[id].operation == o;
      assert Pends(db, id);
    }
  }

  /** So recovery makes no operation succeed, and one that had succeeded stays so if and only if no execution
      was pending for it. */
  lemma NothingSucceedsAfterwards(steps: seq<Step>, found: string -> seq<Result>, o: string)
    requires o in Reached(steps + [Crash]).db.operations
    ensures var db, next := Reached(steps + [Crash]).db, Startup(Reached(steps + [Crash]).db, found);
            o in next.operations
            && (next.operations[o].status == Succeeded <==> db.operations[o].status == Succeeded && !PendsFor(db, o))
  {
    EveryRowEnds(steps, found, "", o, "");
    SuccessEnds(Reached(steps + [Crash]).db, Startup(Reached(steps + [Crash]).db, found), o);
  }

  lemma ClosedAsSucceeded(stack: string, id: string, operation: string, changes: seq<Change>)
    ensures var s := System(TornRun(stack, id, operation, changes), map[id := Closing(operation)], {id});
            Apply(s, Close(id, Succeeded, Took)).db == TornRun(stack, id, operation, changes).(operations := map[operation := Operation(Succeeded, stack, Some(id))])
  {
  }

  /** The condition is needed: after a lost commit the job ends without an error, its operation is stored as
      succeeded while its execution is still applying, and start-up makes it failed. */
  lemma ASuccessMayBeTakenBack(stack: string, id: string, operation: string, changes: seq<Change>, found: string -> seq<Result>)
      returns (steps: seq<Step>)
    ensures var db, next := Reached(steps).db, Startup(Reached(steps).db, found);
            && operation in db.operations && db.operations[operation].status == Succeeded
            && operation in next.operations && next.operations[operation].status == Failed
  {
    var before := TearRun(stack, id, operation, changes);
    ClosedAsSucceeded(stack, id, operation, changes);
    Extend(before, Close(id, Succeeded, Took), System(TornRun(stack, id, operation, changes), map[id := Closing(operation)], {id}));
    steps := before + [Close(id, Succeeded, Took)];
    EveryRunIsCoherent(steps);
    OkIsRecoverable(Reached(steps));
    var db := Reached(steps).db;
    OperationEndsSo(db, found, operation);
    assert Mutates(db, id) && db.executions[id].operation == operation;
  }

  // ---------------------------------------------------------------- start-up as steps of the protocol

  /** Nobody is at work, and recovery has still `rest` to do. */
  ghost predicate Underway(s: System, db: Db, rest: set<string>, found: string -> seq<Result>) {
    s.workers == map[] && rest <= Pending(db) && s.db == After(db, Pending(db) - rest, found)
  }

  function RecoveryOf(db: Db, id: string, found: string -> seq<Result>): Step {
    if Recovering(db, id) then Recover(id, found(id)) else FinishLeftover(id)
  }

  lemma RecoverTakesStep(s: System, id: string, results: seq<Result>, next: Db)
    requires s.workers == map[] && RecoverExecution(s.db, id, results) == Some(next)
    ensures Apply(s, Recover(id, results)) == Put(s, next)
  {
  }

  lemma LeftoverTakesStep(s: System, id: string)
    requires s.workers == map[] && Leftover(s.db, id)
    ensures Apply(s, FinishLeftover(id)) == Put(s, FinishRun(s.db, id, Interrupted, RESTARTED))
  {
  }

  /** One step of the protocol recovers one more. */
  lemma RecoveryAdvances(s: System, db: Db, rest: set<string>, found: string -> seq<Result>, id: string)
    requires Recoverable(db) && Underway(s, db, rest, found) && id in rest
    ensures Underway(Apply(s, RecoveryOf(db, id, found)), db, rest - {id}, found)
  {
    var done := Pending(db) - rest;
    assert done + {id} == Pending(db) - (rest - {id});
    if Recovering(db, id) {
      RecoverStep(db, done, id, found);
      RecoverTakesStep(s, id, found(id), After(db, done + {id}, found));
    } else {
      LeftoverStep(db, done, id, found);
      LeftoverTakesStep(s, id);
    }
  }

  lemma {:induction false} RecoveryRuns(steps: seq<Step>, db: Db, rest: set<string>, found: string -> seq<Result>) returns (all: seq<Step>)
    requires Recoverable(db) && Underway(Reached(steps), db, rest, found)
    ensures Underway(Reached(all), db, {}, found)
    decreases |rest|
  {
    if rest == {} {
      all := steps;
    } else {
      var id :| id in rest;
      var step := RecoveryOf(db, id, found);
      Extend(steps, step, Reached(steps));
      RecoveryAdvances(Reached(steps), db, rest, found, id);
      all := RecoveryRuns(steps + [step], db, rest - {id}, found);
    }
  }

  lemma FailingLeads(s: System, db: Db, found: string -> seq<Result>)
    requires Underway(s, db, {}, found)
    ensures Apply(s, FailOperations).db == Startup(db, found)
  {
    assert Pending(db) - {} == Pending(db);
  }

  /** The start-up after any crash is a run of the protocol itself, so all that holds in every run holds after it. */
  lemma StartupIsReached(steps: seq<Step>, found: string -> seq<Result>) returns (all: seq<Step>)
    ensures Reached(all).db == Startup(Reached(steps).db, found)
  {
    var db := Reached(steps).db;
    EveryCrashIsRecovered(steps, found);
    Extend(steps, Crash, Reached(steps));
    assert Pending(db) - Pending(db) == {};
    NothingDone(db, found);
    all := RecoveryRuns(steps + [Crash], db, Pending(db), found);
    FailingLeads(Reached(all), db, found);
    Extend(all, FailOperations, Reached(all));
    all := all + [FailOperations];
  }
}
