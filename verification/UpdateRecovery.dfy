/** Start-up recovery of interrupted updates: the state it ends in, whatever order it works in and
    however often it is itself interrupted. */
module UpdateRecovery {
  import opened Wrappers
  import opened UpdateTables
  import opened UpdateProtocol
  import opened UpdateSteps

  /** All that recovery asks of the tables, lock-step or not: an execution has been saved for a known run and
      its own operation, on a known stack with a policy, and unfinished executions have no deployment. */
  predicate Sound(db: Db, id: string) {
    && (id in db.executions ==>
          && !db.executions[id].phase.Queued? && !db.executions[id].phase.Checking?
          && Owned(db, db.executions[id].operation, id)
          && db.runs[id].stack in db.archived && db.runs[id].stack in db.policies)
  }

  ghost predicate Recoverable(db: Db) {
    (forall id :: Sound(db, id)) && (forall o :: DeploymentOk(db, o))
  }

  /** Every reachable state is recoverable, lost commits included. */
  lemma OkIsRecoverable(s: System)
    requires Ok(s)
    ensures Recoverable(s.db)
  {
    forall id ensures Sound(s.db, id) {
      assert Row(s, id);
    }
  }

  predicate Recovering(db: Db, id: string) {
    id in db.executions && !db.executions[id].phase.Terminal?
  }

  predicate Unsettled(db: Db, id: string) {
    Recovering(db, id) || (id in db.runs && !db.runs[id].phase.Terminal?)
  }

  /** What recovery still has to close. */
  function Pending(db: Db): set<string> {
    set id | id in db.runs.Keys + db.executions.Keys && Unsettled(db, id)
  }

  /** The runtime may have been changed on behalf of this run. */
  predicate Mutated(db: Db, id: string) {
    id in db.executions && Mutating(db.executions[id].phase)
  }

  // ---------------------------------------------------------------- the tables after recovering `done`

  function Ended(db: Db, id: string): Run
    requires id in db.runs
  {
    if Mutated(db, id) then db.runs[id].(phase := Terminal, outcome := Unsuccessful, reason := INTERRUPTED)
    else db.runs[id].(phase := Terminal, outcome := Interrupted, reason := RESTARTED)
  }

  function Settled(db: Db, id: string, found: string -> seq<Result>): Execution
    requires id in db.executions
  {
    if Mutated(db, id) then db.executions[id].(phase := Terminal, results := found(id))
    else db.executions[id].(phase := Terminal)
  }

  /** The runs that suspend the policy of a stack. */
  function Hits(db: Db, done: set<string>, stack: string): set<string> {
    set id | id in done && id in db.runs && Mutated(db, id) && db.runs[id].stack == stack
  }

  /** A policy paused once for each of them. */
  function Suspended(p: Policy, times: nat): Policy {
    if times == 0 then p else p.(paused := INTERRUPTED, revision := p.revision + times)
  }

  /** The operation of an execution that is being recovered. */
  predicate Concerned(db: Db, done: set<string>, o: string) {
    && o in db.operations && db.operations[o].owner.Some? && db.operations[o].owner.value in done
    && Recovering(db, db.operations[o].owner.value) && db.executions[db.operations[o].owner.value].operation == o
  }

  predicate Deployed(db: Db, done: set<string>, o: string) {
    Concerned(db, done, o) && Mutated(db, db.operations[o].owner.value)
  }

  function RunsAfter(db: Db, done: set<string>): map<string, Run> {
    map id | id in db.runs :: if id in done then Ended(db, id) else db.runs[id]
  }

  function ExecutionsAfter(db: Db, done: set<string>, found: string -> seq<Result>): map<string, Execution> {
    map id | id in db.executions :: if id in done then Settled(db, id, found) else db.executions[id]
  }

  function PoliciesAfter(db: Db, done: set<string>): map<string, Policy> {
    map s | s in db.policies :: Suspended(db.policies[s], |Hits(db, done, s)|)
  }

  function OperationsAfter(db: Db, done: set<string>): map<string, Operation> {
    map o | o in db.operations ::
      if Concerned(db, done, o) then db.operations[o].(status := if Deployed(db, done, o) then Failed else Cancelled)
      else db.operations[o]
  }

  function DeploymentsAfter(db: Db, done: set<string>): map<string, Deployment> {
    map o | o in db.deployments.Keys + db.operations.Keys && (o in db.deployments || Deployed(db, done, o)) ::
      if Deployed(db, done, o) then Deployment(db.operations[o].scope, false, "update_interrupted") else db.deployments[o]
  }

  function After(db: Db, done: set<string>, found: string -> seq<Result>): Db {
    Db(db.archived, PoliciesAfter(db, done), RunsAfter(db, done), ExecutionsAfter(db, done, found),
       OperationsAfter(db, done), DeploymentsAfter(db, done), db.images)
  }

  // ---------------------------------------------------------------- one more run

  lemma NothingDone(db: Db, found: string -> seq<Result>)
    ensures After(db, {}, found) == db
  {
    assert PoliciesAfter(db, {}) == db.policies;
    assert DeploymentsAfter(db, {}) == db.deployments;
  }

  lemma RunsStep(db: Db, done: set<string>, id: string)
    requires id in db.runs
    ensures RunsAfter(db, done + {id}) == RunsAfter(db, done)[id := Ended(db, id)]
  {
  }

  lemma ExecutionsStep(db: Db, done: set<string>, id: string, found: string -> seq<Result>)
    ensures ExecutionsAfter(db, done + {id}, found) ==
            if id in db.executions then ExecutionsAfter(db, done, found)[id := Settled(db, id, found)] else ExecutionsAfter(db, done, found)
  {
  }

  lemma HitsStep(db: Db, done: set<string>, id: string, stack: string)
    requires id !in done
    ensures Hits(db, done + {id}, stack) ==
            Hits(db, done, stack) + if id in db.runs && Mutated(db, id) && db.runs[id].stack == stack then {id} else {}
    ensures |Hits(db, done + {id}, stack)| ==
            |Hits(db, done, stack)| + if id in db.runs && Mutated(db, id) && db.runs[id].stack == stack then 1 else 0
  {
  }

  lemma PoliciesStep(db: Db, done: set<string>, id: string)
    requires id !in done && id in db.runs && (Mutated(db, id) ==> db.runs[id].stack in db.policies)
    ensures var s, p := db.runs[id].stack, PoliciesAfter(db, done);
            && (Mutated(db, id) ==> s in p)
            && PoliciesAfter(db, done + {id}) == if Mutated(db, id) then p[s := Suspended(p[s], 1)] else p
  {
    var s, p, q := db.runs[id].stack, PoliciesAfter(db, done), PoliciesAfter(db, done + {id});
    forall x | x in db.policies ensures q[x] == if x == s && Mutated(db, id) then Suspended(p[x], 1) else p[x] {
      PolicyStep(db, done, id, x);
    }
    assert q == if Mutated(db, id) then p[s := Suspended(p[s], 1)] else p;
  }

  lemma PolicyStep(db: Db, done: set<string>, id: string, x: string)
    requires id !in done && id in db.runs && x in db.policies
    ensures var p := Suspended(db.policies[x], |Hits(db, done, x)|);
            Suspended(db.policies[x], |Hits(db, done + {id}, x)|) ==
            if x == db.runs[id].stack && Mutated(db, id) then Suspended(p, 1) else p
  {
    HitsStep(db, done, id, x);
  }

  lemma OperationsStep(db: Db, done: set<string>, id: string)
    requires id !in done && ExecutionOk(db, id)
    ensures OperationsAfter(db, done + {id}) ==
            if !Recovering(db, id) then OperationsAfter(db, done)
            else
              var o := db.executions[id].operation;
              OperationsAfter(db, done)[o := db.operations[o].(status := if Mutated(db, id) then Failed else Cancelled)]
    ensures Recovering(db, id) ==>
              db.executions[id].operation in OperationsAfter(db, done)
              && OperationsAfter(db, done)[db.executions[id].operation] == db.operations[db.executions[id].operation]
  {
  }

  lemma DeploymentsStep(db: Db, done: set<string>, id: string)
    requires id !in done && ExecutionOk(db, id) && (Mutated(db, id) ==> DeploymentOk(db, db.executions[id].operation))
    ensures DeploymentsAfter(db, done + {id}) ==
            if !Mutated(db, id) then DeploymentsAfter(db, done)
            else
              var o := db.executions[id].operation;
              DeploymentsAfter(db, done)[o := Deployment(db.operations[o].scope, false, "update_interrupted")]
    ensures Mutated(db, id) ==> db.executions[id].operation !in DeploymentsAfter(db, done)
  {
  }

  /** Recovering one more execution: it always succeeds, and gives the next state of the closed form. */
  lemma RecoverStep(db: Db, done: set<string>, id: string, found: string -> seq<Result>)
    requires Recoverable(db) && done <= Pending(db) && id in Pending(db) - done && Recovering(db, id)
    ensures RecoverExecution(After(db, done, found), id, found(id)) == Some(After(db, done + {id}, found))
  {
    assert Sound(db, id);
    var o := db.executions[id].operation;
    assert DeploymentOk(db, o);
    RunsStep(db, done, id);
    ExecutionsStep(db, done, id, found);
    PoliciesStep(db, done, id);
    OperationsStep(db, done, id);
    DeploymentsStep(db, done, id);
    if Mutated(db, id) {
      InterruptionStep(db, done, id, o, found);
    }
  }

  lemma InterruptionStep(db: Db, done: set<string>, id: string, o: string, found: string -> seq<Result>)
    requires id in db.runs && id in db.executions && id !in done && Mutated(db, id) && o == db.executions[id].operation
    requires Owned(db, o, id) && db.runs[id].stack in db.archived
    requires o in After(db, done, found).operations && After(db, done, found).operations[o] == db.operations[o]
    requires o !in After(db, done, found).deployments
    requires db.runs[id].stack in After(db, done, found).policies
    ensures var d := After(db, done, found);
            var s := db.runs[id].stack;
            CompleteOperation(d, o, Failed, Some(Interruption(d, id, o, found(id)))) ==
            Some(d.(policies := d.policies[s := Suspended(d.policies[s], 1)], runs := d.runs[id := Ended(db, id)],
                    executions := d.executions[id := Settled(db, id, found)],
                    operations := d.operations[o := db.operations[o].(status := Failed)],
                    deployments := d.deployments[o := Deployment(s, false, "update_interrupted")]))
  {
  }

  /** Closing one more run without an execution to recover. */
  lemma LeftoverStep(db: Db, done: set<string>, id: string, found: string -> seq<Result>)
    requires Recoverable(db) && done <= Pending(db) && id in Pending(db) - done && !Recovering(db, id)
    ensures Leftover(After(db, done, found), id)
    ensures FinishRun(After(db, done, found), id, Interrupted, RESTARTED) == After(db, done + {id}, found)
  {
    assert Sound(db, id);
    RunsStep(db, done, id);
    ExecutionsStep(db, done, id, found);
    PoliciesStep(db, done, id);
    OperationsStep(db, done, id);
    DeploymentsStep(db, done, id);
  }

  /** Recovery that stopped anywhere leaves recoverable tables. */
  lemma AfterIsRecoverable(db: Db, done: set<string>, found: string -> seq<Result>)
    requires Recoverable(db)
    ensures Recoverable(After(db, done, found))
  {
    var next := After(db, done, found);
    forall id ensures Sound(next, id) {
      SoundAfter(db, done, found, id);
    }
    forall o ensures DeploymentOk(next, o) {
      DeploymentAfter(db, done, found, o);
    }
  }

  lemma SoundAfter(db: Db, done: set<string>, found: string -> seq<Result>, id: string)
    requires Sound(db, id)
    ensures Sound(After(db, done, found), id)
  {
  }

  lemma DeploymentAfter(db: Db, done: set<string>, found: string -> seq<Result>, o: string)
    requires DeploymentOk(db, o)
    ensures DeploymentOk(After(db, done, found), o)
  {
  }

  lemma PendingAfter(db: Db, done: set<string>, found: string -> seq<Result>)
    requires done <= Pending(db)
    ensures Pending(After(db, done, found)) == Pending(db) - done
  {
  }

  lemma {:induction false} RecoveryContinues(db: Db, first: set<string>, second: set<string>, found: string -> seq<Result>)
    requires Recoverable(db) && first + second <= Pending(db) && first !! second
    ensures After(After(db, first, found), second, found) == After(db, first + second, found)
    decreases |second|
  {
    var d := After(db, first, found);
    AfterIsRecoverable(db, first, found);
    PendingAfter(db, first, found);
    if second == {} {
      NothingDone(d, found);
      assert first + second == first;
    } else {
      var id :| id in second;
      var rest := second - {id};
      RecoveryContinues(db, first, rest, found);
      assert rest + {id} == second && first + rest + {id} == first + second;
      OneMoreOnBoth(db, first, rest, id, found);
    }
  }

  /** The tables depend on what was found of the recovered runs only. */
  lemma FoundOfDone(db: Db, done: set<string>, f: string -> seq<Result>, g: string -> seq<Result>)
    requires forall id :: id in done ==> f(id) == g(id)
    ensures After(db, done, f) == After(db, done, g)
  {
    assert ExecutionsAfter(db, done, f) == ExecutionsAfter(db, done, g);
  }

  /** Recovery interrupted after `first` and started again ends where one recovery would have, although the
      second start looks at the runtime anew: each run has what was found when it was recovered. */
  lemma RecoveryResumes(db: Db, first: set<string>, second: set<string>,
                        found: string -> seq<Result>, again: string -> seq<Result>)
    requires Recoverable(db) && first + second <= Pending(db) && first !! second
    ensures After(After(db, first, found), second, again) ==
            After(db, first + second, id => if id in first then found(id) else again(id))
  {
    var both := id => if id in first then found(id) else again(id);
    FoundOfDone(db, first, found, both);
    FoundOfDone(After(db, first, found), second, again, both);
    RecoveryContinues(db, first, second, both);
  }

  /** The same transaction leads on from equal tables. */
  lemma OneMoreOnBoth(db: Db, first: set<string>, rest: set<string>, id: string, found: string -> seq<Result>)
    requires Recoverable(db) && Recoverable(After(db, first, found))
    requires first + rest <= Pending(db) && id in Pending(db) - (first + rest)
    requires Pending(After(db, first, found)) == Pending(db) - first && first !! rest
    requires After(After(db, first, found), rest, found) == After(db, first + rest, found)
    ensures After(After(db, first, found), rest + {id}, found) == After(db, first + rest + {id}, found)
  {
    var d := After(db, first, found);
    if Recovering(db, id) {
      RecoverStep(db, first + rest, id, found);
      RecoverStep(d, rest, id, found);
    } else {
      LeftoverStep(db, first + rest, id, found);
      LeftoverStep(d, rest, id, found);
    }
  }

  // ---------------------------------------------------------------- the state after start-up

  /** Reconciliation of every pending run, then the failure of operations nobody will finish. */
  function Startup(db: Db, found: string -> seq<Result>): Db {
    FailInterrupted(After(db, Pending(db), found))
  }

  ghost predicate Quiescent(db: Db) {
    && (forall id :: id in db.runs ==> db.runs[id].phase.Terminal?)
    && (forall id :: id in db.executions ==> db.executions[id].phase.Terminal?)
    && (forall o :: o in db.operations ==> !Unfinished(db.operations[o].status))
  }

  lemma RowsSettle(db: Db, found: string -> seq<Result>, id: string)
    requires Recoverable(db)
    ensures var next := After(db, Pending(db), found);
            && (id in next.runs ==> next.runs[id].phase.Terminal?)
            && (id in next.executions ==> next.executions[id].phase.Terminal?)
  {
    assert Sound(db, id);
  }

  lemma StartupIsQuiescent(db: Db, found: string -> seq<Result>)
    requires Recoverable(db)
    ensures Quiescent(Startup(db, found))
  {
    var next := After(db, Pending(db), found);
    forall id ensures (id in next.runs ==> next.runs[id].phase.Terminal?) && (id in next.executions ==> next.executions[id].phase.Terminal?) {
      RowsSettle(db, found, id);
    }
    NobodyIsAwaited(next);
  }

  /** With every run and execution finished, no operation is spared. */
  lemma NobodyIsAwaited(db: Db)
    requires forall id :: id in db.runs ==> db.runs[id].phase.Terminal?
    requires forall id :: id in db.executions ==> db.executions[id].phase.Terminal?
    ensures Quiescent(FailInterrupted(db))
  {
    assert forall o :: !Awaited(db, o);
  }

  /** Recovery of tables at rest changes nothing; so running it twice is running it once. */
  lemma RestIsKept(db: Db, found: string -> seq<Result>)
    requires Quiescent(db)
    ensures Startup(db, found) == db
  {
    assert Pending(db) == {};
    NothingDone(db, found);
    assert FailInterrupted(db).operations == db.operations;
  }

  lemma StartupIsIdempotent(db: Db, found: string -> seq<Result>, again: string -> seq<Result>)
    requires Recoverable(db)
    ensures Startup(Startup(db, found), again) == Startup(db, found)
  {
    StartupIsQuiescent(db, found);
    RestIsKept(Startup(db, found), again);
  }

  /** Exactly the stacks with a mutating execution are suspended, one revision for each; every other policy
      is untouched, and new deployments, all failed, belong exactly to the operations of those executions. */
  lemma SuspendsExactlyTheMutated(db: Db, found: string -> seq<Result>, stack: string, o: string)
    requires Recoverable(db)
    ensures stack in db.policies <==> stack in Startup(db, found).policies
    ensures stack in db.policies ==> Startup(db, found).policies[stack] == Suspended(db.policies[stack], |MutatedOf(db, stack)|)
    ensures o in db.deployments ==> o in Startup(db, found).deployments && Startup(db, found).deployments[o] == db.deployments[o]
    ensures o in Startup(db, found).deployments && o !in db.deployments <==>
              exists id :: id in db.executions && Mutating(db.executions[id].phase) && db.executions[id].operation == o
    ensures o in Startup(db, found).deployments && o !in db.deployments ==>
              Startup(db, found).deployments[o] == Deployment(db.operations[o].scope, false, "update_interrupted")
  {
    HitsTheMutated(db, stack);
    DeploysTheMutated(db, o);
  }

  /** The runs of a stack whose execution is applying or verifying. */
  function MutatedOf(db: Db, stack: string): set<string> {
    set id | id in db.runs && Mutated(db, id) && db.runs[id].stack == stack
  }

  lemma HitsTheMutated(db: Db, stack: string)
    ensures Hits(db, Pending(db), stack) == MutatedOf(db, stack)
  {
    forall id | id in MutatedOf(db, stack) ensures id in Pending(db) {}
  }

  /** In step with their executions, two runs of one stack do not mutate together: then the policy moves by
      one revision at most. */
  lemma AtMostOneMutated(s: System, stack: string)
    requires Ok(s) && forall id :: id in s.torn && id in s.db.runs ==> s.db.runs[id].stack != stack
    ensures |MutatedOf(s.db, stack)| <= 1
  {
    var m := MutatedOf(s.db, stack);
    forall a, b | a in m && b in m ensures a == b {
      assert Row(s, a) && Row(s, b);
      assert Apart(s.db, a, b);
    }
    if x :| x in m {
      assert m == {x};
    }
  }

  /** A lost commit into mutation is found too: whatever the job did to the run afterwards, start-up pauses
      the policy and records the failed deployment. */
  lemma MutatedIsPaused(steps: seq<Step>, found: string -> seq<Result>, id: string)
    requires Mutated(Reached(steps).db, id)
    ensures var db := Reached(steps).db;
            && id in db.runs && db.runs[id].stack in db.policies
            && var next := Startup(db, found);
            && next.policies[db.runs[id].stack].paused == INTERRUPTED
            && next.policies[db.runs[id].stack].revision > db.policies[db.runs[id].stack].revision
            && db.executions[id].operation in next.deployments && !next.deployments[db.executions[id].operation].succeeded
  {
    var s := Reached(steps);
    EveryRunIsCoherent(steps);
    OkIsRecoverable(s);
    assert Sound(s.db, id);
    SuspendsExactlyTheMutated(s.db, found, s.db.runs[id].stack, s.db.executions[id].operation);
    assert id in MutatedOf(s.db, s.db.runs[id].stack);
    DeploysTheMutated(s.db, s.db.executions[id].operation);
  }

  lemma DeploysTheMutated(db: Db, o: string)
    requires Recoverable(db)
    ensures Deployed(db, Pending(db), o) <==>
              exists id :: id in db.executions && Mutating(db.executions[id].phase) && db.executions[id].operation == o
    ensures o in db.deployments ==> !Deployed(db, Pending(db), o)
  {
    assert DeploymentOk(db, o);
    if id :| id in db.executions && Mutating(db.executions[id].phase) && db.executions[id].operation == o {
      assert Sound(db, id);
    }
    if Deployed(db, Pending(db), o) {
      assert Mutated(db, db.operations[o].owner.value);
    }
  }

  /** Start-up goes on when reconciliation failed and operations are failed first; reconciling later then
      ends in the same state. */
  lemma FailingFirstIsTheSame(db: Db, found: string -> seq<Result>)
    requires Recoverable(db)
    ensures After(FailInterrupted(db), Pending(db), found) == Startup(db, found)
  {
    FailingFirstRuns(db, found);
    FailingFirstPolicies(db);
    FailingFirstDeployments(db);
    FailingFirstOperations(db, found);
  }

  lemma FailingFirstRuns(db: Db, found: string -> seq<Result>)
    ensures RunsAfter(FailInterrupted(db), Pending(db)) == RunsAfter(db, Pending(db))
    ensures ExecutionsAfter(FailInterrupted(db), Pending(db), found) == ExecutionsAfter(db, Pending(db), found)
  {
  }

  lemma FailingFirstOperations(db: Db, found: string -> seq<Result>)
    requires Recoverable(db)
    ensures OperationsAfter(FailInterrupted(db), Pending(db)) == Startup(db, found).operations
  {
    forall o | o in db.operations ensures OperationsAfter(FailInterrupted(db), Pending(db))[o] == Startup(db, found).operations[o] {
      FailingFirstOperation(db, found, o);
    }
  }

  lemma FailingFirstPolicies(db: Db)
    ensures PoliciesAfter(FailInterrupted(db), Pending(db)) == PoliciesAfter(db, Pending(db))
  {
    assert forall s :: Hits(FailInterrupted(db), Pending(db), s) == Hits(db, Pending(db), s);
  }

  lemma FailingFirstDeployments(db: Db)
    ensures DeploymentsAfter(FailInterrupted(db), Pending(db)) == DeploymentsAfter(db, Pending(db))
  {
    assert forall o :: Deployed(FailInterrupted(db), Pending(db), o) <==> Deployed(db, Pending(db), o);
  }

  /** An operation is awaited exactly when recovery is concerned with it. */
  lemma AwaitedIsConcerned(db: Db, o: string)
    requires Recoverable(db)
    ensures Awaited(db, o) <==> Concerned(db, Pending(db), o)
  {
    if Awaited(db, o) {
      var id :| id in db.executions && db.executions[id].operation == o && !db.executions[id].phase.Terminal?;
      assert Sound(db, id);
    }
  }

  lemma FailingFirstOperation(db: Db, found: string -> seq<Result>, o: string)
    requires Recoverable(db) && o in db.operations
    ensures OperationsAfter(FailInterrupted(db), Pending(db))[o] == Startup(db, found).operations[o]
  {
    AwaitedIsConcerned(db, o);
    var next := After(db, Pending(db), found);
    assert !Awaited(next, o) by {
      forall id ensures id in next.executions ==> next.executions[id].phase.Terminal? {
        RowsSettle(db, found, id);
      }
    }
  }

  /** From every reachable state, lost commits included, a crash and a start-up end at rest. */
  lemma EveryCrashIsRecovered(steps: seq<Step>, found: string -> seq<Result>)
    ensures Recoverable(Reached(steps + [Crash]).db)
    ensures Reached(steps + [Crash]).db == Reached(steps).db
    ensures Quiescent(Startup(Reached(steps).db, found))
  {
    assert (steps + [Crash])[..|steps|] == steps;
    EveryRunIsCoherent(steps);
    OkIsRecoverable(Reached(steps));
    StartupIsQuiescent(Reached(steps).db, found);
  }
}
