/** The update protocol: the order in which scheduler, control plane and recovery run the store's
    transactions, interleaved with policy edits, other operations, lost workers and crashes. */
module UpdateProtocol {
  import opened Wrappers
  import opened UpdateTables

  /** Where the one worker of a run stands; everything here is lost in a crash. */
  datatype Worker =
    | Enqueued
    | Inspecting
    | Starting(operation: string)
    | Ready(operation: string)
    | Saved(operation: string)
    | Changing(operation: string)
    | Observing(operation: string, failed: bool)
    | GivingUp(job: Option<string>, outcome: Outcome, reason: string)
    | Closing(operation: string)

  /** How a transaction ends for its caller: it took effect, it was rolled back, or it took effect and the
      caller was told that it failed. */
  datatype Commit = Took | Refused | Lost

  /** `torn` are the runs whose step into mutation took effect unknown to their job. */
  datatype System = System(db: Db, workers: map<string, Worker>, torn: set<string>)

  datatype Step =
    | AddStack(stack: string)
    | Archive(stack: string)
    | EditPolicy(stack: string, enabled: bool, expression: string, expected: int, next: Option<int>)
    | PausePolicy(stack: string, why: string)
    | Resume(stack: string, revision: int, next: Option<int>, operation: string, images: seq<Change>)
    | Reset(schedule: string -> Option<int>)
    | Prune(stack: string, sources: map<string, string>)
    | Invalidate(stack: string)
    | ManualStart(operation: string, stack: string)
    | ManualFinish(operation: string, status: Status, deployment: Option<bool>)
    | AdmitRun(stack: string, listed: Policy, now: int, next: Option<int>, id: string)
    | Begin(id: string, expired: bool, commit: Commit)
    | GiveUp(id: string, outcome: Outcome, why: string)
    | StartJob(id: string, operation: string, commit: Commit)
    | RunJob(id: string, commit: Commit)
    | Prepare(id: string, changes: seq<Change>, commit: Commit)
    | EnterMutation(id: string, commit: Commit)
    | Changed(id: string, applied: bool, commit: Commit)
    | Complete(id: string, verified: bool, results: seq<Result>, commit: Commit)
    | Finish(id: string, commit: Commit)
    | Close(id: string, status: Status, commit: Commit)
    | Lose(id: string)
    | Crash
    | Recover(id: string, results: seq<Result>)
    | FinishLeftover(id: string)
    | FailOperations

  function At(s: System, id: string, w: Worker): System {
    s.(workers := s.workers[id := w])
  }

  function Gone(s: System, id: string): System {
    s.(workers := s.workers - {id})
  }

  function Put(s: System, db: Db): System {
    s.(db := db)
  }

  function Else<T>(o: Option<T>, otherwise: T): T {
    if o.Some? then o.value else otherwise
  }

  /** The end of an operation that no run owns, with the deployment it may have made. */
  function FinishManually(db: Db, operation: string, status: Status, deployment: Option<bool>): Db {
    if operation !in db.operations || db.operations[operation].owner.Some? then db
    else SaveDeployment(SetStatus(db, operation, status), operation, deployment)
  }

  function SaveDeployment(db: Db, operation: string, deployment: Option<bool>): Db
    requires operation in db.operations
  {
    if deployment.None? || operation in db.deployments then db
    else db.(deployments := db.deployments[operation := Deployment(db.operations[operation].scope, deployment.value, "")])
  }

  function AdmitStep(s: System, stack: string, listed: Policy, now: int, next: Option<int>, id: string): System {
    var t := Put(s, Admit(s.db, stack, listed, now, next, id));
    if Admits(s.db, stack, listed, now, next, id) then At(t, id, Enqueued) else t
  }

  function Recovered(db: Db, id: string, results: seq<Result>): Db {
    Else(RecoverExecution(db, id, results), db)
  }

  function FinishIfLeftover(db: Db, id: string): Db {
    if Leftover(db, id) then FinishRun(db, id, Interrupted, RESTARTED) else db
  }

  function BeginStep(s: System, id: string, expired: bool, commit: Commit): System {
    if expired then At(s, id, GivingUp(None, Skipped, "capacity_deadline"))
    else if commit.Refused? then Gone(s, id)
    else if !Checks(s.db, id) then At(s, id, GivingUp(None, Skipped, "policy_changed"))
    else if commit.Took? then At(Put(s, MarkChecking(s.db, id)), id, Inspecting)
    else Gone(Put(s, MarkChecking(s.db, id)), id)
  }

  function StartStep(s: System, id: string, operation: string, commit: Commit): System
    requires id in s.db.runs
  {
    var t := if commit.Refused? then s else Put(s, CreateOperation(s.db, operation, s.db.runs[id].stack, Some(id)));
    if commit.Took? && operation !in s.db.operations then At(t, id, Starting(operation))
    else At(t, id, GivingUp(None, Unsuccessful, "operation_not_accepted"))
  }

  function RunStep(s: System, id: string, operation: string, commit: Commit): System {
    var t := if commit.Refused? || operation !in s.db.operations then s else Put(s, SetStatus(s.db, operation, Running));
    if commit.Took? && operation in s.db.operations then At(t, id, Ready(operation)) else Gone(t, id)
  }

  function PrepareStep(s: System, id: string, operation: string, changes: seq<Change>, commit: Commit): System {
    var t := if commit.Refused? then s else Put(s, SavePrepared(s.db, id, operation, changes));
    if commit.Took? && Prepares(s.db, id, operation) then At(t, id, Saved(operation))
    else At(t, id, GivingUp(Some(operation), Skipped, "intent_not_saved"))
  }

  function EnterStep(s: System, id: string, operation: string, commit: Commit): System
    requires id in s.db.runs
  {
    var revision := s.db.runs[id].policyRevision;
    var t := if commit.Refused? then s else Put(s, MarkApplying(s.db, id, revision));
    if !Applies(s.db, id, revision) || commit.Refused? then At(t, id, GivingUp(Some(operation), Skipped, "policy_changed"))
    else if commit.Took? then At(t, id, Changing(operation))
    else At(t, id, GivingUp(Some(operation), Skipped, "policy_changed")).(torn := s.torn + {id})
  }

  function ChangedStep(s: System, id: string, operation: string, applied: bool, commit: Commit): System {
    At(if applied && !commit.Refused? then Put(s, MarkVerifying(s.db, id)) else s, id, Observing(operation, !applied || !commit.Took?))
  }

  /** What the job reports about its own mutation. */
  function Report(db: Db, id: string, operation: string, failed: bool, results: seq<Result>): Completion
    requires id in db.runs
  {
    Completion(id, operation, db.runs[id].stack, !failed, if failed then "auto_update_failed" else "", results,
               if failed then RECOVERY else "")
  }

  function CompleteStep(s: System, id: string, operation: string, failed: bool, results: seq<Result>, commit: Commit): System
    requires id in s.db.runs
  {
    var status := if failed then Failed else Succeeded;
    var done := CompleteOperation(s.db, operation, status, Some(Report(s.db, id, operation, failed, results)));
    Gone(if !commit.Refused? then Put(s, Else(done, s.db)) else s, id)
  }

  function FinishStep(s: System, id: string, w: Worker, commit: Commit): System
    requires w.GivingUp?
  {
    var t := if !commit.Refused? then Put(s, FinishRun(s.db, id, w.outcome, w.reason)) else s;
    if w.job.Some? then At(t, id, Closing(w.job.value)) else Gone(t, id)
  }

  function CloseStep(s: System, id: string, operation: string, status: Status, commit: Commit): System {
    Gone(if !commit.Refused? then Put(s, Else(CompleteOperation(s.db, operation, status, None), s.db)) else s, id)
  }

  /** A run that recovery finds without an execution to recover. */
  predicate Leftover(db: Db, id: string) {
    id in db.runs && !db.runs[id].phase.Terminal? && (id in db.executions ==> db.executions[id].phase.Terminal?)
  }

  /** Steps that nobody's worker takes. */
  function OtherStep(s: System, step: Step): System {
    match step
    case AddStack(stack) => if stack in s.db.archived then s else Put(s, s.db.(archived := s.db.archived[stack := false]))
    case Archive(stack) => if stack in s.db.archived then Put(s, s.db.(archived := s.db.archived[stack := true])) else s
    case EditPolicy(stack, enabled, expression, expected, next) => Put(s, SavePolicy(s.db, stack, enabled, expression, expected, next))
    case PausePolicy(stack, why) => Put(s, Pause(s.db, stack, why))
    case Resume(stack, revision, next, operation, images) => Put(s, ResumePolicy(s.db, stack, revision, next, operation, images))
    case Reset(schedule) => Put(s, ResetAfterStartup(s.db, schedule))
    case Prune(stack, sources) => Put(s, PruneImages(s.db, stack, sources))
    case Invalidate(stack) => Put(s, s.db.(images := Without(s.db.images, stack)))
    case ManualStart(operation, stack) => Put(s, CreateOperation(s.db, operation, stack, None))
    case ManualFinish(operation, status, deployment) =>
      Put(s, FinishManually(s.db, operation, status, deployment))
    case AdmitRun(stack, listed, now, next, id) =>
      AdmitStep(s, stack, listed, now, next, id)
    case Crash => s.(workers := map[])
    case Recover(id, results) => if s.workers == map[] then Put(s, Recovered(s.db, id, results)) else s
    case FinishLeftover(id) => if s.workers == map[] then Put(s, FinishIfLeftover(s.db, id)) else s
    case FailOperations => if s.workers == map[] then Put(s, FailInterrupted(s.db)) else s
    case _ => s
  }

  /** A step of the worker of run `id`, which stands at `w`. */
  function WorkerStep(s: System, step: Step, id: string, w: Worker): System
    requires id in s.db.runs
  {
    match (step, w)
    case (Begin(_, expired, commit), Enqueued) => BeginStep(s, id, expired, commit)
    case (GiveUp(_, outcome, why), Inspecting) =>
      if outcome.Skipped? || outcome.Unsuccessful? || outcome.Unchanged? then At(s, id, GivingUp(None, outcome, why)) else s
    case (StartJob(_, operation, commit), Inspecting) => StartStep(s, id, operation, commit)
    case (RunJob(_, commit), Starting(operation)) => RunStep(s, id, operation, commit)
    case (Prepare(_, changes, commit), Ready(operation)) => PrepareStep(s, id, operation, changes, commit)
    case (EnterMutation(_, commit), Saved(operation)) => EnterStep(s, id, operation, commit)
    case (Changed(_, applied, commit), Changing(operation)) => ChangedStep(s, id, operation, applied, commit)
    case (Complete(_, verified, results, commit), Observing(operation, failed)) =>
      CompleteStep(s, id, operation, failed || !verified, results, commit)
    case (Finish(_, commit), GivingUp(_, _, _)) => FinishStep(s, id, w, commit)
    case (Close(_, status, commit), Closing(operation)) => CloseStep(s, id, operation, status, commit)
    case (Lose(_), _) => Gone(s, id)
    case _ => s
  }

  predicate ByWorker(step: Step) {
    || step.Begin? || step.GiveUp? || step.StartJob? || step.RunJob? || step.Prepare? || step.EnterMutation?
    || step.Changed? || step.Complete? || step.Finish? || step.Close? || step.Lose?
  }

  function Apply(s: System, step: Step): System {
    if !ByWorker(step) then OtherStep(s, step)
    else if step.id in s.workers && step.id in s.db.runs then WorkerStep(s, step, step.id, s.workers[step.id])
    else s
  }

  const START: System := System(EMPTY, map[], {})

  function Reached(steps: seq<Step>): System {
    if steps == [] then START else Apply(Reached(steps[..|steps| - 1]), steps[|steps| - 1])
  }

  // ---------------------------------------------------------------- invariants

  /** A run and its execution move in lock-step. */
  predicate LockStep(db: Db, id: string) {
    id in db.runs ==>
      match db.runs[id].phase
      case Queued => id !in db.executions
      case Checking => id !in db.executions
      case Terminal => id in db.executions ==> db.executions[id].phase.Terminal?
      case phase => id in db.executions && db.executions[id].phase == phase
  }

  /** A run marked updated has an execution whose results confirm every change. */
  predicate OutcomeOk(db: Db, id: string) {
    id in db.runs && db.runs[id].outcome.Updated? ==>
      && db.runs[id].phase.Terminal? && id in db.executions && db.executions[id].phase.Terminal?
      && AllVerified(db.executions[id].changes, db.executions[id].results)
  }

  /** A run torn from its execution: finished, or about to be, as if it had not entered mutation. */
  predicate Torn(db: Db, id: string) {
    && id in db.runs && id in db.executions && (db.runs[id].phase.Applying? || db.runs[id].phase.Terminal?)
    && (db.executions[id].phase.Applying? || (db.executions[id].phase.Terminal? && db.runs[id].phase.Terminal?))
  }

  /** Its stack and policy are known, and its outcome is earned. */
  predicate RunOk(db: Db, id: string) {
    && (id in db.runs ==> db.runs[id].stack in db.archived && db.runs[id].stack in db.policies)
    && OutcomeOk(db, id)
  }

  predicate Owned(db: Db, operation: string, id: string) {
    && id in db.runs && operation in db.operations
    && db.operations[operation].owner == Some(id) && db.operations[operation].scope == db.runs[id].stack
  }

  predicate ExecutionOk(db: Db, id: string) {
    id in db.executions ==> Owned(db, db.executions[id].operation, id)
  }

  /** Only a finished execution has a deployment. */
  predicate DeploymentOk(db: Db, operation: string) {
    operation in db.deployments ==>
      && operation in db.operations
      && (db.operations[operation].owner.Some? ==>
            var id := db.operations[operation].owner.value;
            id in db.executions && db.executions[id].operation == operation && db.executions[id].phase.Terminal?)
  }

  predicate Apart(db: Db, a: string, b: string) {
    a in db.runs && b in db.runs && a != b && !db.runs[a].phase.Terminal? && !db.runs[b].phase.Terminal? ==>
      db.runs[a].stack != db.runs[b].stack
  }

  /** The worker of a torn run is giving up or closing; any other stands where the run's phase says. */
  predicate Here(db: Db, id: string, w: Worker, torn: bool) {
    && id in db.runs && (torn ==> w.GivingUp? || w.Closing?)
    && match w
       case Enqueued => db.runs[id].phase.Queued?
       case Inspecting => db.runs[id].phase.Checking?
       case Starting(operation) => db.runs[id].phase.Checking? && Owned(db, operation, id)
       case Ready(operation) => db.runs[id].phase.Checking? && Owned(db, operation, id)
       case Saved(operation) => db.runs[id].phase.Prepared? && id in db.executions && db.executions[id].operation == operation
       case Changing(operation) => db.runs[id].phase.Applying? && id in db.executions && db.executions[id].operation == operation
       case Observing(operation, failed) =>
         Mutating(db.runs[id].phase) && id in db.executions && db.executions[id].operation == operation
       case GivingUp(job, outcome, _) =>
         (torn || !Mutating(db.runs[id].phase)) && !outcome.Updated? && (job.Some? ==> Owned(db, job.value, id))
       case Closing(operation) => Owned(db, operation, id)
  }

  /** Everything the invariants say about one run and its worker. */
  predicate Row(s: System, id: string) {
    && RunOk(s.db, id) && ExecutionOk(s.db, id)
    && (if id in s.torn then Torn(s.db, id) else LockStep(s.db, id))
    && (id in s.workers ==> Here(s.db, id, s.workers[id], id in s.torn))
  }

  ghost predicate Ok(s: System) {
    (forall id :: Row(s, id)) && (forall o :: DeploymentOk(s.db, o)) && (forall a, b :: Apart(s.db, a, b))
  }
}
