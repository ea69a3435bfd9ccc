/** One whole update, from a new stack to its selected images: the laws of the protocol are not about
    nothing. */
module UpdateExample {
  import opened Wrappers
  import opened UpdateTables
  import opened UpdateProtocol

  /** No commit has been lost. */
  function Calm(db: Db, workers: map<string, Worker>): System {
    System(db, workers, {})
  }

  lemma Extend(steps: seq<Step>, step: Step, s: System)
    requires Reached(steps) == s
    ensures Reached(steps + [step]) == Apply(s, step)
  {
    assert (steps + [step])[..|steps|] == steps;
  }

  const POLICY: Policy := Policy(true, "0 3 * * *", 1, 10, "")

  function Scheduled(stack: string): Db {
    Db(map[stack := false], map[stack := POLICY], map[], map[], map[], map[], map[])
  }

  function WithRun(stack: string, id: string, phase: Phase): Db {
    Scheduled(stack).(policies := map[stack := POLICY.(nextRunAt := 20)],
                      runs := map[id := Run(stack, 1, 10, phase, Undecided, "", "")])
  }

  function WithJob(stack: string, id: string, operation: string, status: Status): Db {
    WithRun(stack, id, Checking).(operations := map[operation := Operation(status, stack, Some(id))])
  }

  function WithExecution(stack: string, id: string, operation: string, changes: seq<Change>, phase: Phase): Db {
    WithJob(stack, id, operation, Running).(
      runs := map[id := Run(stack, 1, 10, phase, Undecided, "", operation)],
      executions := map[id := Execution(operation, phase, changes, [])])
  }

  lemma Added(stack: string)
    ensures Apply(START, AddStack(stack)) == Calm(EMPTY.(archived := map[stack := false]), map[])
  {
  }

  lemma PolicySaved(stack: string)
    ensures SavePolicy(EMPTY.(archived := map[stack := false]), stack, true, "0 3 * * *", 0, Some(10)) == Scheduled(stack)
  {
  }

  lemma Schedule(stack: string) returns (steps: seq<Step>)
    ensures Reached(steps) == Calm(Scheduled(stack), map[])
  {
    Added(stack);
    PolicySaved(stack);
    Extend([], AddStack(stack), START);
    Extend([] + [AddStack(stack)], EditPolicy(stack, true, "0 3 * * *", 0, Some(10)), Calm(EMPTY.(archived := map[stack := false]), map[]));
    steps := [] + [AddStack(stack)] + [EditPolicy(stack, true, "0 3 * * *", 0, Some(10))];
  }

  lemma Start(stack: string, id: string) returns (steps: seq<Step>)
    ensures Reached(steps) == Calm(WithRun(stack, id, Checking), map[id := Inspecting])
  {
    var before := Schedule(stack);
    var s := Calm(Scheduled(stack), map[]);
    var admit, begin := AdmitRun(stack, POLICY, 15, Some(20), id), Begin(id, false, Took);
    var t := Calm(WithRun(stack, id, Queued), map[id := Enqueued]);
    assert Admits(s.db, stack, POLICY, 15, Some(20), id);
    assert Apply(s, admit) == t;
    Extend(before, admit, s);
    assert Checks(t.db, id);
    assert Apply(t, begin) == Calm(WithRun(stack, id, Checking), map[id := Inspecting]);
    Extend(before + [admit], begin, t);
    steps := before + [admit] + [begin];
  }

  lemma Job(stack: string, id: string, operation: string) returns (steps: seq<Step>)
    ensures Reached(steps) == Calm(WithJob(stack, id, operation, Running), map[id := Ready(operation)])
  {
    var before := Start(stack, id);
    var s := Calm(WithRun(stack, id, Checking), map[id := Inspecting]);
    var t := Calm(WithJob(stack, id, operation, Waiting), map[id := Starting(operation)]);
    assert Apply(s, StartJob(id, operation, Took)) == t;
    Extend(before, StartJob(id, operation, Took), s);
    assert Apply(t, RunJob(id, Took)) == Calm(WithJob(stack, id, operation, Running), map[id := Ready(operation)]);
    Extend(before + [StartJob(id, operation, Took)], RunJob(id, Took), t);
    steps := before + [StartJob(id, operation, Took)] + [RunJob(id, Took)];
  }

  lemma IntentSaved(stack: string, id: string, operation: string, changes: seq<Change>)
    ensures Apply(Calm(WithJob(stack, id, operation, Running), map[id := Ready(operation)]), Prepare(id, changes, Took)) ==
            Calm(WithExecution(stack, id, operation, changes, Prepared), map[id := Saved(operation)])
  {
    assert Prepares(WithJob(stack, id, operation, Running), id, operation);
  }

  lemma MutationEntered(stack: string, id: string, operation: string, changes: seq<Change>)
    ensures Apply(Calm(WithExecution(stack, id, operation, changes, Prepared), map[id := Saved(operation)]), EnterMutation(id, Took)) ==
            Calm(WithExecution(stack, id, operation, changes, Applying), map[id := Changing(operation)])
  {
    assert Applies(WithExecution(stack, id, operation, changes, Prepared), id, 1);
  }

  /** The run is about to enter mutation, and after the returned step it has. */
  lemma Mutate(stack: string, id: string, operation: string, changes: seq<Change>) returns (steps: seq<Step>, enter: Step)
    ensures Reached(steps) == Calm(WithExecution(stack, id, operation, changes, Prepared), map[id := Saved(operation)])
    ensures Reached(steps + [enter]) == Calm(WithExecution(stack, id, operation, changes, Applying), map[id := Changing(operation)])
  {
    var before := Job(stack, id, operation);
    IntentSaved(stack, id, operation, changes);
    MutationEntered(stack, id, operation, changes);
    Extend(before, Prepare(id, changes, Took), Calm(WithJob(stack, id, operation, Running), map[id := Ready(operation)]));
    steps, enter := before + [Prepare(id, changes, Took)], EnterMutation(id, Took);
    Extend(steps, enter, Calm(WithExecution(stack, id, operation, changes, Prepared), map[id := Saved(operation)]));
  }

  lemma RuntimeChanged(stack: string, id: string, operation: string, changes: seq<Change>)
    ensures Apply(Calm(WithExecution(stack, id, operation, changes, Applying), map[id := Changing(operation)]), Changed(id, true, Took)) ==
            Calm(WithExecution(stack, id, operation, changes, Verifying), map[id := Observing(operation, false)])
  {
  }

  lemma Verify(stack: string, id: string, operation: string, changes: seq<Change>) returns (steps: seq<Step>)
    ensures Reached(steps) == Calm(WithExecution(stack, id, operation, changes, Verifying), map[id := Observing(operation, false)])
  {
    var before, enter := Mutate(stack, id, operation, changes);
    RuntimeChanged(stack, id, operation, changes);
    Extend(before + [enter], Changed(id, true, Took), Calm(WithExecution(stack, id, operation, changes, Applying), map[id := Changing(operation)]));
    steps := before + [enter] + [Changed(id, true, Took)];
  }

  function Updated(stack: string, id: string, operation: string, changes: seq<Change>, results: seq<Result>): Db {
    WithExecution(stack, id, operation, changes, Verifying).(
      runs := map[id := Run(stack, 1, 10, Terminal, Outcome.Updated, "", operation)],
      executions := map[id := Execution(operation, Terminal, changes, results)],
      operations := map[operation := Operation(Succeeded, stack, Some(id))],
      deployments := map[operation := Deployment(stack, true, "")],
      images := Select(map[], stack, changes))
  }

  lemma Completed(stack: string, id: string, operation: string, changes: seq<Change>, results: seq<Result>)
    requires AllVerified(changes, results)
    ensures var db := WithExecution(stack, id, operation, changes, Verifying);
            CompleteOperation(db, operation, Succeeded, Some(Report(db, id, operation, false, results))) ==
            Some(Updated(stack, id, operation, changes, results))
  {
    var db := WithExecution(stack, id, operation, changes, Verifying);
    var c := Report(db, id, operation, false, results);
    assert Completes(db, operation, Succeeded, c);
    var r, u := CompleteUpdate(db, operation, Succeeded, c).value, Updated(stack, id, operation, changes, results);
    assert r.runs == u.runs && r.executions == u.executions && r.deployments == u.deployments;
    assert r.images == u.images && r.policies == u.policies && r.archived == u.archived;
    assert SetStatus(r, operation, Succeeded).operations == u.operations;
  }

  lemma CompletesTheRun(stack: string, id: string, operation: string, changes: seq<Change>, results: seq<Result>)
    requires AllVerified(changes, results)
    ensures Apply(Calm(WithExecution(stack, id, operation, changes, Verifying), map[id := Observing(operation, false)]),
                  Complete(id, true, results, Took)).db == Updated(stack, id, operation, changes, results)
  {
    Completed(stack, id, operation, changes, results);
    var s := Calm(WithExecution(stack, id, operation, changes, Verifying), map[id := Observing(operation, false)]);
    assert Apply(s, Complete(id, true, results, Took)) == CompleteStep(s, id, operation, false, results, Took);
  }

  /** For any changes, and results that confirm them, some run of the protocol updates the stack: the run
      ends updated, its images are selected, its deployment succeeded and the policy is untouched. */
  lemma AnUpdateCanSucceed(stack: string, id: string, operation: string, changes: seq<Change>, results: seq<Result>)
      returns (steps: seq<Step>)
    requires AllVerified(changes, results)
    ensures Reached(steps).db == Updated(stack, id, operation, changes, results)
  {
    var before := Verify(stack, id, operation, changes);
    var s := Calm(WithExecution(stack, id, operation, changes, Verifying), map[id := Observing(operation, false)]);
    CompletesTheRun(stack, id, operation, changes, results);
    Extend(before, Complete(id, true, results, Took), s);
    steps := before + [Complete(id, true, results, Took)];
  }

  function TornRun(stack: string, id: string, operation: string, changes: seq<Change>): Db {
    WithExecution(stack, id, operation, changes, Applying).(
      runs := map[id := Run(stack, 1, 10, Terminal, Skipped, "policy_changed", operation)])
  }

  lemma LostEntry(stack: string, id: string, operation: string, changes: seq<Change>)
    ensures var s := Calm(WithExecution(stack, id, operation, changes, Prepared), map[id := Saved(operation)]);
            Apply(s, EnterMutation(id, Lost)) ==
            System(WithExecution(stack, id, operation, changes, Applying), map[id := GivingUp(Some(operation), Skipped, "policy_changed")], {id})
  {
    var s := Calm(WithExecution(stack, id, operation, changes, Prepared), map[id := Saved(operation)]);
    assert Applies(s.db, id, 1);
  }

  lemma FinishedWhileMutating(stack: string, id: string, operation: string, changes: seq<Change>)
    ensures FinishRun(WithExecution(stack, id, operation, changes, Applying), id, Skipped, "policy_changed") == TornRun(stack, id, operation, changes)
  {
  }

  lemma TornFinish(stack: string, id: string, operation: string, changes: seq<Change>)
    ensures var t := System(WithExecution(stack, id, operation, changes, Applying), map[id := GivingUp(Some(operation), Skipped, "policy_changed")], {id});
            Apply(t, Finish(id, Took)) == System(TornRun(stack, id, operation, changes), map[id := Closing(operation)], {id})
  {
    FinishedWhileMutating(stack, id, operation, changes);
  }

  lemma TornIsOutOfStep(stack: string, id: string, operation: string, changes: seq<Change>)
    ensures !LockStep(TornRun(stack, id, operation, changes), id)
  {
  }

  lemma TearRun(stack: string, id: string, operation: string, changes: seq<Change>) returns (steps: seq<Step>)
    ensures Reached(steps) == System(TornRun(stack, id, operation, changes), map[id := Closing(operation)], {id})
  {
    var before, enter := Mutate(stack, id, operation, changes);
    LostEntry(stack, id, operation, changes);
    TornFinish(stack, id, operation, changes);
    Extend(before, EnterMutation(id, Lost), Calm(WithExecution(stack, id, operation, changes, Prepared), map[id := Saved(operation)]));
    Extend(before + [EnterMutation(id, Lost)], Finish(id, Took),
           System(WithExecution(stack, id, operation, changes, Applying), map[id := GivingUp(Some(operation), Skipped, "policy_changed")], {id}));
    steps := before + [EnterMutation(id, Lost)] + [Finish(id, Took)];
  }

  /** What a lost commit does: the job is told that it may not change the runtime, finishes its run as
      skipped, and leaves an execution that is still applying. */
  lemma ALostCommitTearsTheRun(stack: string, id: string, operation: string, changes: seq<Change>) returns (steps: seq<Step>)
    ensures Reached(steps).db == TornRun(stack, id, operation, changes)
    ensures !LockStep(Reached(steps).db, id) && id in Reached(steps).torn
  {
    TornIsOutOfStep(stack, id, operation, changes);
    steps := TearRun(stack, id, operation, changes);
  }
}
