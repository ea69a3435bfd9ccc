/** What every step of the update protocol keeps: first the rows of the run it moves, then everything else. */
module UpdateSteps {
  import opened Wrappers
  import opened UpdateTables
  import opened UpdateProtocol

  // ---------------------------------------------------------------- one row against one step

  /** How a step may move one run: it keeps what it was admitted with, a run finished with its
      execution, and a finished execution, never change, mutation is entered only while the policy permits it, and a run is added
      only while the policy permits it, in a slot that has none, and unfinished only to a stack without one. */
  predicate Moved(db: Db, next: Db, id: string) {
    && (id in db.runs ==>
          && id in next.runs && next.runs[id].stack == db.runs[id].stack
          && next.runs[id].policyRevision == db.runs[id].policyRevision && next.runs[id].scheduledAt == db.runs[id].scheduledAt
          && (db.runs[id].phase.Terminal? ==> next.runs[id].phase.Terminal?)
          && (db.runs[id].phase.Terminal? && LockStep(db, id) ==> next.runs[id] == db.runs[id] && LockStep(next, id))
          && (next.runs[id].phase.Applying? && !db.runs[id].phase.Applying? ==> Applies(db, id, db.runs[id].policyRevision)))
    && (id !in db.runs && id in next.runs ==>
          && Permits(db, next.runs[id].stack, next.runs[id].policyRevision) && Active(db, next.runs[id].stack)
          && !Mutating(next.runs[id].phase) && !Taken(db, next.runs[id].stack, next.runs[id].scheduledAt)
          && (next.runs[id].phase.Terminal? || !Busy(db, next.runs[id].stack)))
    && (id in db.executions ==>
          && id in next.executions && next.executions[id].operation == db.executions[id].operation
          && next.executions[id].changes == db.executions[id].changes
          && (db.executions[id].phase.Terminal? ==> next.executions[id] == db.executions[id]))
  }

  lemma BeginRow(s: System, id: string, expired: bool, commit: Commit)
    requires Row(s, id) && id in s.workers && s.workers[id].Enqueued?
    ensures Row(BeginStep(s, id, expired, commit), id) && Moved(s.db, BeginStep(s, id, expired, commit).db, id)
  {
  }

  lemma StartRow(s: System, id: string, operation: string, commit: Commit)
    requires Row(s, id) && id in s.workers && s.workers[id].Inspecting?
    ensures Row(StartStep(s, id, operation, commit), id) && Moved(s.db, StartStep(s, id, operation, commit).db, id)
  {
  }

  lemma RunRow(s: System, id: string, operation: string, commit: Commit)
    requires Row(s, id) && id in s.workers && s.workers[id] == Starting(operation)
    ensures Row(RunStep(s, id, operation, commit), id) && Moved(s.db, RunStep(s, id, operation, commit).db, id)
  {
  }

  lemma PrepareRow(s: System, id: string, operation: string, changes: seq<Change>, commit: Commit)
    requires Row(s, id) && id in s.workers && s.workers[id] == Ready(operation)
    ensures Row(PrepareStep(s, id, operation, changes, commit), id) && Moved(s.db, PrepareStep(s, id, operation, changes, commit).db, id)
  {
  }

  lemma EnterRow(s: System, id: string, operation: string, commit: Commit)
    requires Row(s, id) && id in s.workers && s.workers[id] == Saved(operation)
    ensures Row(EnterStep(s, id, operation, commit), id) && Moved(s.db, EnterStep(s, id, operation, commit).db, id)
  {
  }

  lemma ChangedRow(s: System, id: string, operation: string, applied: bool, commit: Commit)
    requires Row(s, id) && id in s.workers && s.workers[id] == Changing(operation)
    ensures Row(ChangedStep(s, id, operation, applied, commit), id) && Moved(s.db, ChangedStep(s, id, operation, applied, commit).db, id)
  {
  }

  lemma FinishRow(s: System, id: string, w: Worker, commit: Commit)
    requires Row(s, id) && id in s.workers && s.workers[id] == w && w.GivingUp?
    ensures Row(FinishStep(s, id, w, commit), id) && Moved(s.db, FinishStep(s, id, w, commit).db, id)
  {
  }

  lemma CloseRow(s: System, id: string, operation: string, status: Status, commit: Commit)
    requires Row(s, id) && id in s.workers && s.workers[id] == Closing(operation)
    ensures Row(CloseStep(s, id, operation, status, commit), id) && Moved(s.db, CloseStep(s, id, operation, status, commit).db, id)
  {
  }

  lemma CompleteRow(s: System, id: string, operation: string, failed: bool, results: seq<Result>, commit: Commit)
    requires Row(s, id) && id in s.workers && s.workers[id].Observing? && s.workers[id].operation == operation
    ensures Row(CompleteStep(s, id, operation, failed, results, commit), id) && Moved(s.db, CompleteStep(s, id, operation, failed, results, commit).db, id)
  {
  }

  lemma WorkerRow(s: System, step: Step)
    requires ByWorker(step) && step.id in s.workers && Row(s, step.id)
    ensures Row(Apply(s, step), step.id) && Moved(s.db, Apply(s, step).db, step.id)
  {
    if step.Complete? {
      if s.workers[step.id].Observing? {
        var w := s.workers[step.id];
        CompleteRow(s, step.id, w.operation, w.failed || !step.verified, step.results, step.commit);
      }
    } else if step.Finish? || step.Close? || step.Changed? {
      LateRow(s, step, s.workers[step.id]);
    } else {
      EarlyRow(s, step, s.workers[step.id]);
    }
  }

  lemma LateRow(s: System, step: Step, w: Worker)
    requires step.Finish? || step.Close? || step.Changed?
    requires step.id in s.workers && w == s.workers[step.id] && Row(s, step.id)
    ensures Row(WorkerStep(s, step, step.id, w), step.id) && Moved(s.db, WorkerStep(s, step, step.id, w).db, step.id)
  {
    if step.Changed? {
      if w.Changing? { ChangedRow(s, step.id, w.operation, step.applied, step.commit); }
    } else if step.Finish? {
      if w.GivingUp? { FinishRow(s, step.id, w, step.commit); }
    } else {
      if w.Closing? { CloseRow(s, step.id, w.operation, step.status, step.commit); }
    }
  }

  lemma EarlyRow(s: System, step: Step, w: Worker)
    requires ByWorker(step) && !step.Complete? && !step.Finish? && !step.Close? && !step.Changed?
    requires step.id in s.workers && w == s.workers[step.id] && Row(s, step.id)
    ensures Row(WorkerStep(s, step, step.id, w), step.id) && Moved(s.db, WorkerStep(s, step, step.id, w).db, step.id)
  {
    if step.Begin? {
      if w.Enqueued? { BeginRow(s, step.id, step.expired, step.commit); }
    } else if step.StartJob? {
      if w.Inspecting? { StartRow(s, step.id, step.operation, step.commit); }
    } else if step.RunJob? {
      if w.Starting? { RunRow(s, step.id, w.operation, step.commit); }
    } else if step.Prepare? {
      if w.Ready? { PrepareRow(s, step.id, w.operation, step.changes, step.commit); }
    } else if step.EnterMutation? {
      if w.Saved? { EnterRow(s, step.id, w.operation, step.commit); }
    }
  }

  lemma RecoverRow(s: System, id: string, results: seq<Result>)
    requires s.workers == map[] && Row(s, id)
    ensures Row(Put(s, Recovered(s.db, id, results)), id) && Moved(s.db, Recovered(s.db, id, results), id)
  {
  }

  lemma LeftoverRow(s: System, id: string)
    requires s.workers == map[] && Row(s, id)
    ensures Row(Put(s, FinishIfLeftover(s.db, id)), id) && Moved(s.db, FinishIfLeftover(s.db, id), id)
  {
  }

  lemma AdmitRow(s: System, stack: string, listed: Policy, now: int, next: Option<int>, id: string)
    requires Row(s, id)
    ensures Row(AdmitStep(s, stack, listed, now, next, id), id) && Moved(s.db, AdmitStep(s, stack, listed, now, next, id).db, id)
  {
  }

  // ---------------------------------------------------------------- what a step leaves alone

  /** Stacks, policies and operations stay, archived stacks archived, and an operation keeps its scope and owner. */
  ghost predicate Grows(db: Db, next: Db) {
    && (forall x :: x in db.archived ==> x in next.archived && (db.archived[x] ==> next.archived[x]))
    && (forall x :: x in db.policies ==> x in next.policies)
    && (forall o :: o in db.operations ==>
          && o in next.operations
          && next.operations[o].owner == db.operations[o].owner && next.operations[o].scope == db.operations[o].scope)
  }

  predicate SameRun(db: Db, next: Db, id: string) {
    && (id in db.runs <==> id in next.runs) && (id in db.runs ==> next.runs[id] == db.runs[id])
    && (id in db.executions <==> id in next.executions)
    && (id in db.executions ==> next.executions[id] == db.executions[id])
  }

  predicate SameRow(s: System, t: System, id: string) {
    SameRun(s.db, t.db, id) && (id in t.torn <==> id in s.torn) && (id in t.workers ==> id in s.workers && t.workers[id] == s.workers[id])
  }

  lemma FrameRow(s: System, t: System, id: string)
    requires Row(s, id) && Grows(s.db, t.db) && SameRow(s, t, id)
    ensures Row(t, id)
  {
  }

  /** The run a step may write. */
  function Touched(step: Step): Option<string> {
    if ByWorker(step) || step.AdmitRun? || step.Recover? || step.FinishLeftover? then Some(step.id) else None
  }

  lemma AdmitFrames(db: Db, stack: string, listed: Policy, now: int, next: Option<int>, id: string, x: string)
    ensures Grows(db, Admit(db, stack, listed, now, next, id))
    ensures x != id ==> SameRun(db, Admit(db, stack, listed, now, next, id), x)
  {
  }

  lemma CompletionFrames(db: Db, operation: string, status: Status, c: Completion, x: string)
    requires CompleteUpdate(db, operation, status, c).Some?
    ensures Grows(db, CompleteUpdate(db, operation, status, c).value)
    ensures x != c.run ==> SameRun(db, CompleteUpdate(db, operation, status, c).value, x)
  {
  }

  lemma OperationFrames(db: Db, operation: string, status: Status, c: Option<Completion>, x: string)
    requires CompleteOperation(db, operation, status, c).Some?
    ensures Grows(db, CompleteOperation(db, operation, status, c).value)
    ensures (c.Some? ==> x != c.value.run) ==> SameRun(db, CompleteOperation(db, operation, status, c).value, x)
  {
    if c.Some? {
      CompletionFrames(db, operation, status, c.value, x);
    }
  }

  lemma RecoverFrames(db: Db, id: string, results: seq<Result>, x: string)
    ensures Grows(db, Recovered(db, id, results))
    ensures x != id ==> SameRun(db, Recovered(db, id, results), x)
  {
    if id in db.executions && RecoverExecution(db, id, results).Some? {
      var e := db.executions[id];
      if Mutating(e.phase) {
        OperationFrames(db, e.operation, Failed, Some(Interruption(db, id, e.operation, results)), x);
      } else if e.phase.Prepared? {
        DiscardFrames(db, id, x);
        if e.operation in db.operations {
          StatusFrames(Discard(db, id), e.operation, Cancelled, x);
        }
      }
    }
  }

  lemma DiscardFrames(db: Db, id: string, x: string)
    ensures Grows(db, Discard(db, id)) && (x != id ==> SameRun(db, Discard(db, id), x))
  {
  }

  lemma StatusFrames(db: Db, operation: string, status: Status, x: string)
    requires operation in db.operations
    ensures Grows(db, SetStatus(db, operation, status)) && SameRun(db, SetStatus(db, operation, status), x)
  {
  }

  lemma FinishFrames(db: Db, id: string, outcome: Outcome, reason: string, x: string)
    ensures Grows(db, FinishRun(db, id, outcome, reason))
    ensures x != id ==> SameRun(db, FinishRun(db, id, outcome, reason), x)
  {
  }

  lemma ResumeFrames(db: Db, stack: string, revision: int, next: Option<int>, operation: string, images: seq<Change>, x: string)
    ensures Grows(db, ResumePolicy(db, stack, revision, next, operation, images))
    ensures SameRun(db, ResumePolicy(db, stack, revision, next, operation, images), x)
  {
  }

  lemma ManualFrames(db: Db, operation: string, status: Status, deployment: Option<bool>, x: string)
    ensures Grows(db, FinishManually(db, operation, status, deployment))
    ensures SameRun(db, FinishManually(db, operation, status, deployment), x)
  {
    if operation in db.operations {
      StatusFrames(db, operation, status, x);
    }
  }

  lemma FailFrames(db: Db, x: string)
    ensures Grows(db, FailInterrupted(db)) && SameRun(db, FailInterrupted(db), x)
  {
  }

  lemma OtherFrames(s: System, step: Step, x: string)
    requires Touched(step).None?
    ensures Grows(s.db, Apply(s, step).db) && SameRow(s, Apply(s, step), x)
  {
    if step.Resume? {
      ResumeFrames(s.db, step.stack, step.revision, step.next, step.operation, step.images, x);
    } else if step.ManualFinish? {
      ManualFrames(s.db, step.operation, step.status, step.deployment, x);
    } else if step.FailOperations? {
      FailFrames(s.db, x);
    } else if step.AddStack? || step.Archive? || step.Prune? || step.Invalidate? || step.ManualStart? || step.Crash? {
      SimpleFrames(s, step, x);
    } else if step.EditPolicy? {
      EditFrames(s.db, step.stack, step.enabled, step.expression, step.expected, step.next, x);
    } else if step.PausePolicy? {
      PauseFrames(s.db, step.stack, step.why, x);
    } else {
      ResetFrames(s.db, step.schedule, x);
    }
  }

  lemma SimpleFrames(s: System, step: Step, x: string)
    requires step.AddStack? || step.Archive? || step.Prune? || step.Invalidate? || step.ManualStart? || step.Crash?
    ensures Grows(s.db, Apply(s, step).db) && SameRow(s, Apply(s, step), x)
  {
  }

  lemma EditFrames(db: Db, stack: string, enabled: bool, expression: string, expected: int, next: Option<int>, x: string)
    ensures var after := SavePolicy(db, stack, enabled, expression, expected, next); Grows(db, after) && SameRun(db, after, x)
  {
  }

  lemma PauseFrames(db: Db, stack: string, reason: string, x: string)
    ensures Grows(db, Pause(db, stack, reason)) && SameRun(db, Pause(db, stack, reason), x)
  {
  }

  lemma ResetFrames(db: Db, schedule: string -> Option<int>, x: string)
    ensures Grows(db, ResetAfterStartup(db, schedule)) && SameRun(db, ResetAfterStartup(db, schedule), x)
  {
  }

  lemma CompleteFrames(s: System, id: string, operation: string, failed: bool, results: seq<Result>, commit: Commit, x: string)
    requires id in s.db.runs
    ensures Grows(s.db, CompleteStep(s, id, operation, failed, results, commit).db)
    ensures x != id ==> SameRow(s, CompleteStep(s, id, operation, failed, results, commit), x)
  {
    var status, c := if failed then Failed else Succeeded, Report(s.db, id, operation, failed, results);
    if CompleteOperation(s.db, operation, status, Some(c)).Some? {
      OperationFrames(s.db, operation, status, Some(c), x);
    }
  }

  lemma GivingUpFrames(s: System, id: string, w: Worker, commit: Commit, x: string)
    requires w.GivingUp?
    ensures Grows(s.db, FinishStep(s, id, w, commit).db)
    ensures x != id ==> SameRow(s, FinishStep(s, id, w, commit), x)
  {
    FinishFrames(s.db, id, w.outcome, w.reason, x);
  }

  lemma CloseFrames(s: System, id: string, operation: string, status: Status, commit: Commit, x: string)
    ensures Grows(s.db, CloseStep(s, id, operation, status, commit).db)
    ensures x != id ==> SameRow(s, CloseStep(s, id, operation, status, commit), x)
  {
    if CompleteOperation(s.db, operation, status, None).Some? {
      OperationFrames(s.db, operation, status, None, x);
    }
  }

  lemma PrepareFrames(s: System, id: string, operation: string, changes: seq<Change>, commit: Commit, x: string)
    ensures Grows(s.db, PrepareStep(s, id, operation, changes, commit).db)
    ensures x != id ==> SameRow(s, PrepareStep(s, id, operation, changes, commit), x)
  {
  }

  lemma EnterFrames(s: System, id: string, operation: string, commit: Commit, x: string)
    requires id in s.db.runs
    ensures Grows(s.db, EnterStep(s, id, operation, commit).db)
    ensures x != id ==> SameRow(s, EnterStep(s, id, operation, commit), x)
  {
  }

  lemma ChangedFrames(s: System, id: string, operation: string, applied: bool, commit: Commit, x: string)
    ensures Grows(s.db, ChangedStep(s, id, operation, applied, commit).db)
    ensures x != id ==> SameRow(s, ChangedStep(s, id, operation, applied, commit), x)
  {
  }

  lemma CreateFrames(db: Db, operation: string, scope: string, owner: Option<string>, x: string)
    ensures Grows(db, CreateOperation(db, operation, scope, owner)) && SameRun(db, CreateOperation(db, operation, scope, owner), x)
  {
  }

  lemma StartFrames(s: System, id: string, operation: string, commit: Commit, x: string)
    requires id in s.db.runs
    ensures Grows(s.db, StartStep(s, id, operation, commit).db)
    ensures x != id ==> SameRow(s, StartStep(s, id, operation, commit), x)
  {
    CreateFrames(s.db, operation, s.db.runs[id].stack, Some(id), x);
  }

  lemma BeginFrames(s: System, id: string, expired: bool, commit: Commit, x: string)
    ensures Grows(s.db, BeginStep(s, id, expired, commit).db)
    ensures x != id ==> SameRow(s, BeginStep(s, id, expired, commit), x)
  {
  }

  lemma RunFrames(s: System, id: string, operation: string, commit: Commit, x: string)
    ensures Grows(s.db, RunStep(s, id, operation, commit).db)
    ensures x != id ==> SameRow(s, RunStep(s, id, operation, commit), x)
  {
  }

  lemma WorkerFrames(s: System, step: Step, x: string)
    requires ByWorker(step)
    ensures Grows(s.db, Apply(s, step).db)
    ensures x != step.id ==> SameRow(s, Apply(s, step), x)
  {
    if step.id in s.workers && step.id in s.db.runs {
      var w := s.workers[step.id];
      if step.Complete? {
        if w.Observing? { CompleteFrames(s, step.id, w.operation, w.failed || !step.verified, step.results, step.commit, x); }
      } else if step.Finish? {
        if w.GivingUp? { GivingUpFrames(s, step.id, w, step.commit, x); }
      } else if step.Close? {
        if w.Closing? { CloseFrames(s, step.id, w.operation, step.status, step.commit, x); }
      } else {
        EarlyFrames(s, step, w, x);
      }
    }
  }

  lemma EarlyFrames(s: System, step: Step, w: Worker, x: string)
    requires ByWorker(step) && step.id in s.db.runs && !step.Complete? && !step.Finish? && !step.Close?
    ensures Grows(s.db, WorkerStep(s, step, step.id, w).db)
    ensures x != step.id ==> SameRow(s, WorkerStep(s, step, step.id, w), x)
  {
    if step.Begin? {
      if w.Enqueued? { BeginFrames(s, step.id, step.expired, step.commit, x); }
    } else if step.StartJob? {
      if w.Inspecting? { StartFrames(s, step.id, step.operation, step.commit, x); }
    } else if step.RunJob? {
      if w.Starting? { RunFrames(s, step.id, w.operation, step.commit, x); }
    } else if step.Prepare? {
      if w.Ready? { PrepareFrames(s, step.id, w.operation, step.changes, step.commit, x); }
    } else if step.EnterMutation? {
      if w.Saved? { EnterFrames(s, step.id, w.operation, step.commit, x); }
    } else if step.Changed? {
      if w.Changing? { ChangedFrames(s, step.id, w.operation, step.applied, step.commit, x); }
    }
  }

  lemma TouchedFrames(s: System, step: Step, x: string)
    requires step.AdmitRun? || step.Recover? || step.FinishLeftover?
    ensures Grows(s.db, Apply(s, step).db)
    ensures x != step.id ==> SameRow(s, Apply(s, step), x)
  {
    if step.AdmitRun? {
      AdmitFrames(s.db, step.stack, step.listed, step.now, step.next, step.id, x);
    } else if step.Recover? {
      RecoverFrames(s.db, step.id, step.results, x);
    } else {
      FinishFrames(s.db, step.id, Interrupted, RESTARTED, x);
    }
  }

  /** A step writes no run but its own, and keeps stacks, policies and operations. */
  lemma Frames(s: System, step: Step, x: string)
    ensures Grows(s.db, Apply(s, step).db)
    ensures Touched(step) != Some(x) ==> SameRow(s, Apply(s, step), x)
  {
    if ByWorker(step) {
      WorkerFrames(s, step, x);
    } else if Touched(step).None? {
      OtherFrames(s, step, x);
    } else {
      TouchedFrames(s, step, x);
    }
  }

  lemma RowKept(s: System, step: Step, x: string)
    requires Row(s, x)
    ensures Row(Apply(s, step), x) && Moved(s.db, Apply(s, step).db, x)
  {
    Frames(s, step, x);
    if Touched(step) != Some(x) {
      FrameRow(s, Apply(s, step), x);
    } else if ByWorker(step) {
      if x in s.workers {
        WorkerRow(s, step);
      }
    } else {
      TouchedRow(s, step);
    }
  }

  lemma TouchedRow(s: System, step: Step)
    requires (step.AdmitRun? || step.Recover? || step.FinishLeftover?) && Row(s, step.id)
    ensures Row(Apply(s, step), step.id) && Moved(s.db, Apply(s, step).db, step.id)
  {
    if step.AdmitRun? {
      AdmitRow(s, step.stack, step.listed, step.now, step.next, step.id);
    } else if s.workers == map[] {
      if step.Recover? {
        RecoverRow(s, step.id, step.results);
      } else {
        LeftoverRow(s, step.id);
      }
    }
  }

  // ---------------------------------------------------------------- the whole of the tables

  lemma CompletionDeploys(db: Db, operation: string, status: Status, c: Completion, o: string)
    requires CompleteUpdate(db, operation, status, c).Some? && ExecutionOk(db, c.run)
    ensures var next := CompleteUpdate(db, operation, status, c).value;
            o in next.deployments ==> o in db.deployments || DeploymentOk(next, o)
  {
  }

  lemma OperationDeploys(db: Db, operation: string, status: Status, c: Option<Completion>, o: string)
    requires CompleteOperation(db, operation, status, c).Some? && (c.Some? ==> ExecutionOk(db, c.value.run))
    ensures var next := CompleteOperation(db, operation, status, c).value;
            o in next.deployments ==> o in db.deployments || DeploymentOk(next, o)
  {
    if c.Some? {
      CompletionDeploys(db, operation, status, c.value, o);
    }
  }

  lemma RecoverDeploys(db: Db, id: string, results: seq<Result>, o: string)
    requires ExecutionOk(db, id)
    ensures o in Recovered(db, id, results).deployments ==> o in db.deployments || DeploymentOk(Recovered(db, id, results), o)
  {
    if id in db.executions && Mutating(db.executions[id].phase) && RecoverExecution(db, id, results).Some? {
      var op := db.executions[id].operation;
      OperationDeploys(db, op, Failed, Some(Interruption(db, id, op, results)), o);
    }
  }

  lemma CompleteDeploys(s: System, id: string, operation: string, failed: bool, results: seq<Result>, commit: Commit, o: string)
    requires id in s.db.runs && ExecutionOk(s.db, id)
    ensures var next := CompleteStep(s, id, operation, failed, results, commit).db;
            o in next.deployments ==> o in s.db.deployments || DeploymentOk(next, o)
  {
    var status, c := if failed then Failed else Succeeded, Report(s.db, id, operation, failed, results);
    if CompleteOperation(s.db, operation, status, Some(c)).Some? {
      OperationDeploys(s.db, operation, status, Some(c), o);
    }
  }

  /** Neither policies nor deployments change. */
  predicate Spares(db: Db, next: Db) {
    next.policies == db.policies && next.deployments == db.deployments
  }

  lemma EnterSpares(s: System, id: string, operation: string, commit: Commit)
    requires id in s.db.runs
    ensures Spares(s.db, EnterStep(s, id, operation, commit).db)
  {
  }

  lemma ChangedSpares(s: System, id: string, operation: string, applied: bool, commit: Commit)
    ensures Spares(s.db, ChangedStep(s, id, operation, applied, commit).db)
  {
  }

  lemma PrepareSpares(s: System, id: string, operation: string, changes: seq<Change>, commit: Commit)
    ensures Spares(s.db, PrepareStep(s, id, operation, changes, commit).db)
  {
  }

  lemma FinishSpares(s: System, id: string, w: Worker, commit: Commit)
    requires w.GivingUp?
    ensures Spares(s.db, FinishStep(s, id, w, commit).db)
  {
  }

  lemma CloseSpares(s: System, id: string, operation: string, status: Status, commit: Commit)
    ensures Spares(s.db, CloseStep(s, id, operation, status, commit).db)
  {
  }

  lemma BeginSpares(s: System, id: string, expired: bool, commit: Commit)
    ensures Spares(s.db, BeginStep(s, id, expired, commit).db)
  {
  }

  lemma StartSpares(s: System, id: string, operation: string, commit: Commit)
    requires id in s.db.runs
    ensures Spares(s.db, StartStep(s, id, operation, commit).db)
  {
  }

  lemma RunSpares(s: System, id: string, operation: string, commit: Commit)
    ensures Spares(s.db, RunStep(s, id, operation, commit).db)
  {
  }

  /** Of a worker's steps only the completion touches policies and deployments. */
  lemma WorkerSpares(s: System, step: Step, w: Worker)
    requires ByWorker(step) && !step.Complete? && step.id in s.db.runs
    ensures Spares(s.db, WorkerStep(s, step, step.id, w).db)
  {
    if step.Prepare? {
      if w.Ready? { PrepareSpares(s, step.id, w.operation, step.changes, step.commit); }
    } else if step.EnterMutation? {
      if w.Saved? { EnterSpares(s, step.id, w.operation, step.commit); }
    } else if step.Changed? {
      if w.Changing? { ChangedSpares(s, step.id, w.operation, step.applied, step.commit); }
    } else if step.Finish? {
      if w.GivingUp? { FinishSpares(s, step.id, w, step.commit); }
    } else if step.Close? {
      if w.Closing? { CloseSpares(s, step.id, w.operation, step.status, step.commit); }
    } else if step.Begin? {
      if w.Enqueued? { BeginSpares(s, step.id, step.expired, step.commit); }
    } else if step.StartJob? {
      if w.Inspecting? { StartSpares(s, step.id, step.operation, step.commit); }
    } else if step.RunJob? {
      if w.Starting? { RunSpares(s, step.id, w.operation, step.commit); }
    }
  }

  lemma WorkerDeploys(s: System, step: Step, o: string)
    requires ByWorker(step) && ExecutionOk(s.db, step.id)
    ensures var next := Apply(s, step).db;
            o in next.deployments ==> o in s.db.deployments || DeploymentOk(next, o)
  {
    if step.id in s.workers && step.id in s.db.runs {
      var w := s.workers[step.id];
      if !step.Complete? {
        WorkerSpares(s, step, w);
      } else if w.Observing? {
        CompleteDeploys(s, step.id, w.operation, w.failed || !step.verified, step.results, step.commit, o);
      }
    }
  }

  lemma OtherDeploys(s: System, step: Step, o: string)
    requires !ByWorker(step) && (step.Recover? ==> ExecutionOk(s.db, step.id))
    ensures var next := Apply(s, step).db;
            o in next.deployments ==> o in s.db.deployments || DeploymentOk(next, o)
  {
    if step.Recover? {
      RecoverDeploys(s.db, step.id, step.results, o);
    } else if !step.Resume? && !step.ManualFinish? {
      RestDeploysNothing(s, step);
    }
  }

  lemma RestDeploysNothing(s: System, step: Step)
    requires !ByWorker(step) && !step.Recover? && !step.Resume? && !step.ManualFinish?
    ensures Apply(s, step).db.deployments == s.db.deployments
  {
  }

  lemma DeploymentKept(s: System, step: Step, o: string)
    requires DeploymentOk(s.db, o) && forall id :: Row(s, id)
    ensures DeploymentOk(Apply(s, step).db, o)
  {
    if o in s.db.deployments {
      Frames(s, step, "");
      if s.db.operations[o].owner.Some? {
        RowKept(s, step, s.db.operations[o].owner.value);
      }
    } else if ByWorker(step) {
      assert Row(s, step.id);
      WorkerDeploys(s, step, o);
    } else {
      if step.Recover? { assert Row(s, step.id); }
      OtherDeploys(s, step, o);
    }
  }

  lemma ApartFrom(db: Db, next: Db, a: string, b: string)
    requires Apart(db, a, b) && Moved(db, next, a) && Moved(db, next, b)
    requires SameRun(db, next, a) || SameRun(db, next, b)
    ensures Apart(next, a, b)
  {
  }

  lemma ApartKept(s: System, step: Step, a: string, b: string)
    requires Apart(s.db, a, b) && Row(s, a) && Row(s, b)
    ensures Apart(Apply(s, step).db, a, b)
  {
    if a != b {
      RowKept(s, step, a);
      RowKept(s, step, b);
      Frames(s, step, a);
      Frames(s, step, b);
      ApartFrom(s.db, Apply(s, step).db, a, b);
    }
  }

  /** Every step keeps the tables coherent. */
  lemma StepKeeps(s: System, step: Step)
    requires Ok(s)
    ensures Ok(Apply(s, step))
  {
    var t := Apply(s, step);
    forall id ensures Row(t, id) { RowKept(s, step, id); }
    forall o ensures DeploymentOk(t.db, o) { DeploymentKept(s, step, o); }
    forall a, b ensures Apart(t.db, a, b) { ApartKept(s, step, a, b); }
  }

  lemma {:induction false} EveryRunIsCoherent(steps: seq<Step>)
    ensures Ok(Reached(steps))
  {
    if steps != [] {
      EveryRunIsCoherent(steps[..|steps| - 1]);
      StepKeeps(Reached(steps[..|steps| - 1]), steps[|steps| - 1]);
    }
  }
}
