/** Automatic updates: the durable tables and the store transactions that move them. */
module UpdateTables {
  import opened Wrappers

  datatype Phase = Queued | Checking | Prepared | Applying | Verifying | Terminal

  datatype Outcome = Undecided | Updated | Unsuccessful | Skipped | Unchanged | Interrupted

  datatype Policy = Policy(enabled: bool, expression: string, revision: nat, nextRunAt: int, paused: string)

  datatype Run = Run(stack: string, policyRevision: nat, scheduledAt: int, phase: Phase, outcome: Outcome, reason: string, operation: string)

  datatype Change = Change(service: string, source: string, target: string, platform: string, image: string)

  datatype Result = Result(service: string, verified: bool, image: string)

  datatype Execution = Execution(operation: string, phase: Phase, changes: seq<Change>, results: seq<Result>)

  datatype Status = Waiting | Running | Succeeded | Failed | Cancelled

  /** `owner` is the run whose job the operation was created for; other operations have none. */
  datatype Operation = Operation(status: Status, scope: string, owner: Option<string>)

  datatype Deployment = Deployment(stack: string, succeeded: bool, code: string)

  /** Deployments are keyed by their operation, which is unique. */
  datatype Db = Db(archived: map<string, bool>, policies: map<string, Policy>, runs: map<string, Run>,
                   executions: map<string, Execution>, operations: map<string, Operation>,
                   deployments: map<string, Deployment>, images: map<(string, string), Change>)

  const EMPTY: Db := Db(map[], map[], map[], map[], map[], map[], map[])

  const INTERRUPTED: string := "interrupted_update"
  const RECOVERY: string := "recovery_required"
  const RESTARTED: string := "restart_before_mutation"

  /** The runtime may have been changed. */
  predicate Mutating(p: Phase) {
    p.Applying? || p.Verifying?
  }

  predicate Active(db: Db, stack: string) {
    stack in db.archived && !db.archived[stack]
  }

  /** The policy allows an update admitted at `revision`. */
  predicate Permits(db: Db, stack: string, revision: int) {
    && stack in db.policies && db.policies[stack].enabled && db.policies[stack].paused == ""
    && db.policies[stack].revision == revision
  }

  function SetPolicy(db: Db, stack: string, p: Policy): Db {
    db.(policies := db.policies[stack := p])
  }

  // ---------------------------------------------------------------- policies

  predicate Saves(db: Db, stack: string, expected: int, next: Option<int>) {
    && next.Some? && expected >= 0 && Active(db, stack)
    && (if expected == 0 then stack !in db.policies else stack in db.policies && db.policies[stack].revision == expected)
  }

  function Edited(db: Db, stack: string, enabled: bool, expression: string, expected: int, next: Option<int>): (p: Policy)
    requires Saves(db, stack, expected, next)
    ensures p.revision == expected + 1
  {
    if expected == 0 then Policy(enabled, expression, 1, next.value, "")
    else Policy(enabled, expression, expected + 1, next.value, db.policies[stack].paused)
  }

  function SavePolicy(db: Db, stack: string, enabled: bool, expression: string, expected: int, next: Option<int>): Db {
    if Saves(db, stack, expected, next) then SetPolicy(db, stack, Edited(db, stack, enabled, expression, expected, next)) else db
  }

  function Pause(db: Db, stack: string, reason: string): Db {
    if stack !in db.policies then db
    else SetPolicy(db, stack, db.policies[stack].(paused := reason, revision := db.policies[stack].revision + 1))
  }

  /** `next` is the schedule: the run time after start-up for each expression, or a parse failure. */
  predicate Reschedulable(db: Db, next: string -> Option<int>) {
    forall stack :: stack in db.policies ==> next(db.policies[stack].expression).Some?
  }

  function ResetAfterStartup(db: Db, next: string -> Option<int>): Db {
    if !Reschedulable(db, next) then db
    else db.(policies := map stack | stack in db.policies ::
      db.policies[stack].(nextRunAt := next(db.policies[stack].expression).value))
  }

  /** Every change that the policies table can see: the row stays, and other settings need a higher revision. */
  predicate PolicyMoved(p: Policy, q: Policy) {
    q.revision > p.revision || (q.revision == p.revision && q == p.(nextRunAt := q.nextRunAt))
  }

  // ---------------------------------------------------------------- images

  function Without(images: map<(string, string), Change>, stack: string): map<(string, string), Change> {
    map k | k in images && k.0 != stack :: images[k]
  }

  /** The upserts of a completed update, in order. */
  function Select(images: map<(string, string), Change>, stack: string, changes: seq<Change>): map<(string, string), Change> {
    if changes == [] then images
    else
      var last := changes[|changes| - 1];
      Select(images, stack, changes[..|changes| - 1])[(stack, last.service) := last]
  }

  predicate Distinct(changes: seq<Change>) {
    forall i, j :: 0 <= i < j < |changes| ==> changes[i].service != changes[j].service
  }

  predicate Confirms(results: seq<Result>, c: Change) {
    exists i :: 0 <= i < |results| && results[i] == Result(c.service, true, c.image)
  }

  predicate AllVerified(changes: seq<Change>, results: seq<Result>) {
    forall i :: 0 <= i < |changes| ==> Confirms(results, changes[i])
  }

  predicate Names(changes: seq<Change>, service: string) {
    exists i :: 0 <= i < |changes| && changes[i].service == service
  }

  /** `c` is the last change of its service. */
  predicate LastOf(changes: seq<Change>, c: Change) {
    exists i :: 0 <= i < |changes| && changes[i] == c && forall j :: i < j < |changes| ==> changes[j].service != c.service
  }

  lemma NamesStep(changes: seq<Change>, service: string)
    requires changes != []
    ensures Names(changes, service) <==> changes[|changes| - 1].service == service || Names(changes[..|changes| - 1], service)
  {
    var n := |changes| - 1;
    if i :| 0 <= i < n && changes[i].service == service {
      assert changes[..n][i].service == service;
    }
  }

  lemma LastStep(changes: seq<Change>, c: Change)
    requires changes != []
    ensures LastOf(changes, changes[|changes| - 1])
    ensures LastOf(changes[..|changes| - 1], c) && changes[|changes| - 1].service != c.service ==> LastOf(changes, c)
  {
    var n := |changes| - 1;
    assert changes[n] == changes[|changes| - 1];
    if LastOf(changes[..n], c) && changes[n].service != c.service {
      var i :| 0 <= i < n && changes[..n][i] == c && forall j :: i < j < n ==> changes[..n][j].service != c.service;
      assert changes[i] == c;
      forall j | i < j < |changes| ensures changes[j].service != c.service {
        if j < n { assert changes[..n][j] == changes[j]; }
      }
    }
  }

  /** What selecting leaves: the last change of each named service, and every other row as it was. */
  lemma {:induction false} SelectedRows(images: map<(string, string), Change>, stack: string, changes: seq<Change>, k: (string, string))
    ensures var r := Select(images, stack, changes);
            if k.0 == stack && Names(changes, k.1) then k in r && r[k].service == k.1 && LastOf(changes, r[k])
            else (k in r <==> k in images) && (k in images ==> r[k] == images[k])
    decreases |changes|
  {
    if changes != [] {
      var n := |changes| - 1;
      SelectedRows(images, stack, changes[..n], k);
      NamesStep(changes, k.1);
      LastStep(changes, if k in Select(images, stack, changes[..n]) then Select(images, stack, changes[..n])[k] else changes[n]);
    }
  }

  // ---------------------------------------------------------------- runs

  predicate Busy(db: Db, stack: string) {
    exists id :: id in db.runs && db.runs[id].stack == stack && !db.runs[id].phase.Terminal?
  }

  predicate Taken(db: Db, stack: string, at: int) {
    exists id :: id in db.runs && db.runs[id].stack == stack && db.runs[id].scheduledAt == at
  }

  /** The policy as it was listed is due, and its row has not changed since. */
  predicate Due(db: Db, stack: string, p: Policy, now: int, next: Option<int>) {
    && p.enabled && p.paused == "" && p.nextRunAt != 0 && p.nextRunAt <= now && next.Some?
    && Permits(db, stack, p.revision) && db.policies[stack].nextRunAt == p.nextRunAt && Active(db, stack)
  }

  predicate Admits(db: Db, stack: string, p: Policy, now: int, next: Option<int>, id: string) {
    Due(db, stack, p, now, next) && id !in db.runs && !Taken(db, stack, p.nextRunAt) && !Busy(db, stack)
  }

  function Admit(db: Db, stack: string, p: Policy, now: int, next: Option<int>, id: string): Db {
    if !Due(db, stack, p, now, next) || id in db.runs then db
    else
      var moved := SetPolicy(db, stack, db.policies[stack].(nextRunAt := next.value));
      if Taken(db, stack, p.nextRunAt) then moved
      else
        var run := if Busy(db, stack) then Run(stack, p.revision, p.nextRunAt, Terminal, Skipped, "overlap", "")
                   else Run(stack, p.revision, p.nextRunAt, Queued, Undecided, "", "");
        moved.(runs := db.runs[id := run])
  }

  function SetPhase(db: Db, id: string, phase: Phase): Db
    requires id in db.runs
  {
    db.(runs := db.runs[id := db.runs[id].(phase := phase)])
  }

  /** The guarded update of the execution row. */
  function MoveExecution(db: Db, id: string, from: Phase, to: Phase): Db {
    if id in db.executions && db.executions[id].phase == from
    then db.(executions := db.executions[id := db.executions[id].(phase := to)])
    else db
  }

  predicate Checks(db: Db, id: string) {
    && id in db.runs && db.runs[id].phase.Queued?
    && Permits(db, db.runs[id].stack, db.runs[id].policyRevision) && Active(db, db.runs[id].stack)
  }

  function MarkChecking(db: Db, id: string): Db {
    if Checks(db, id) then SetPhase(db, id, Checking) else db
  }

  /** The row can be written (run, policy) and inserted (unique run and operation, known operation). */
  predicate Prepares(db: Db, id: string, operation: string) {
    && id in db.runs && (db.runs[id].phase.Queued? || db.runs[id].phase.Checking?)
    && Permits(db, db.runs[id].stack, db.runs[id].policyRevision)
    && id !in db.executions && operation in db.operations
    && forall x :: x in db.executions ==> db.executions[x].operation != operation
  }

  function SavePrepared(db: Db, id: string, operation: string, changes: seq<Change>): Db {
    if Prepares(db, id, operation)
    then db.(runs := db.runs[id := db.runs[id].(phase := Prepared, operation := operation)],
             executions := db.executions[id := Execution(operation, Prepared, changes, [])])
    else db
  }

  predicate Applies(db: Db, id: string, revision: int) {
    && id in db.runs && db.runs[id].phase.Prepared? && db.runs[id].policyRevision == revision
    && Permits(db, db.runs[id].stack, revision) && Active(db, db.runs[id].stack)
  }

  function MarkApplying(db: Db, id: string, revision: int): Db {
    if Applies(db, id, revision) then MoveExecution(SetPhase(db, id, Applying), id, Prepared, Applying) else db
  }

  function MarkVerifying(db: Db, id: string): Db {
    MoveExecution(if id in db.runs && db.runs[id].phase.Applying? then SetPhase(db, id, Verifying) else db, id, Applying, Verifying)
  }

  function FinishRun(db: Db, id: string, outcome: Outcome, reason: string): Db {
    if id !in db.runs || db.runs[id].phase.Terminal? then db
    else MoveExecution(db.(runs := db.runs[id := db.runs[id].(phase := Terminal, outcome := outcome, reason := reason)]),
                       id, Prepared, Terminal)
  }

  // ---------------------------------------------------------------- operations

  function SetStatus(db: Db, operation: string, status: Status): Db
    requires operation in db.operations
  {
    db.(operations := db.operations[operation := db.operations[operation].(status := status)])
  }

  function CreateOperation(db: Db, operation: string, scope: string, owner: Option<string>): Db {
    if operation in db.operations then db
    else db.(operations := db.operations[operation := Operation(Waiting, scope, owner)])
  }

  datatype Completion = Completion(run: string, operation: string, stack: string, succeeded: bool, code: string, results: seq<Result>, pause: string)

  predicate Successful(status: Status, c: Completion) {
    status.Succeeded? && c.succeeded && c.pause == ""
  }

  /** The completion writes a result: it belongs to a mutating execution and nothing it inserts is there yet. */
  predicate Completes(db: Db, operation: string, status: Status, c: Completion) {
    && c.run in db.executions && db.executions[c.run].operation == operation && Mutating(db.executions[c.run].phase)
    && operation in db.operations && c.operation == operation && c.stack == db.operations[operation].scope
    && operation !in db.deployments && c.stack in db.archived
    && (Successful(status, c) ==> AllVerified(db.executions[c.run].changes, c.results))
  }

  function CompleteUpdate(db: Db, operation: string, status: Status, c: Completion): Option<Db> {
    if c.run in db.executions && db.executions[c.run].operation == operation && db.executions[c.run].phase.Terminal? then Some(db)
    else if !Completes(db, operation, status, c) then None
    else
      var paused := if c.pause != "" then Pause(db, c.stack, c.pause) else db;
      Some(paused.(
        deployments := db.deployments[operation := Deployment(c.stack, c.succeeded, c.code)],
        images := if Successful(status, c) then Select(db.images, c.stack, db.executions[c.run].changes) else db.images,
        executions := db.executions[c.run := db.executions[c.run].(phase := Terminal, results := c.results)],
        runs := if c.run !in db.runs then db.runs
                else db.runs[c.run := db.runs[c.run].(phase := Terminal, reason := c.pause,
                                                      outcome := if Successful(status, c) then Updated else Unsuccessful)]))
  }

  function CompleteOperation(db: Db, operation: string, status: Status, c: Option<Completion>): Option<Db> {
    var updated := if c.None? then Some(db) else CompleteUpdate(db, operation, status, c.value);
    if updated.None? || operation !in updated.value.operations then None
    else Some(SetStatus(updated.value, operation, status))
  }

  predicate Unfinished(s: Status) {
    s.Waiting? || s.Running?
  }

  /** Some update that may still be recovered owns the operation. */
  predicate Awaited(db: Db, operation: string) {
    exists id :: id in db.executions && db.executions[id].operation == operation && !db.executions[id].phase.Terminal?
  }

  function FailInterrupted(db: Db): Db {
    db.(operations := map o | o in db.operations ::
      if Unfinished(db.operations[o].status) && !Awaited(db, o) then db.operations[o].(status := Failed) else db.operations[o])
  }

  // ---------------------------------------------------------------- recovery and resumption

  function Interruption(db: Db, id: string, operation: string, results: seq<Result>): Completion
    requires operation in db.operations
  {
    Completion(id, operation, db.operations[operation].scope, false, "update_interrupted", results, INTERRUPTED)
  }

  /** An update that was saved and never applied. */
  function Discard(db: Db, id: string): Db {
    var finished := MoveExecution(db, id, Prepared, Terminal);
    if id !in db.runs then finished
    else finished.(runs := db.runs[id := db.runs[id].(phase := Terminal, outcome := Interrupted, reason := RESTARTED)])
  }

  function RecoverExecution(db: Db, id: string, results: seq<Result>): Option<Db> {
    if id !in db.executions then None
    else
      var e := db.executions[id];
      match e.phase
      case Terminal => Some(db)
      case Prepared =>
        var discarded := Discard(db, id);
        Some(if e.operation in db.operations then SetStatus(discarded, e.operation, Cancelled) else discarded)
      case Applying =>
        if e.operation !in db.operations then None
        else CompleteOperation(db, e.operation, Failed, Some(Interruption(db, id, e.operation, results)))
      case Verifying =>
        if e.operation !in db.operations then None
        else CompleteOperation(db, e.operation, Failed, Some(Interruption(db, id, e.operation, results)))
      case _ => None
  }

  predicate Resumes(db: Db, stack: string, revision: int, next: Option<int>, operation: string, images: seq<Change>) {
    && stack in db.policies && db.policies[stack].revision == revision && db.policies[stack].paused != "" && next.Some?
    && operation !in db.operations && operation !in db.deployments && stack in db.archived && Distinct(images)
  }

  function ResumePolicy(db: Db, stack: string, revision: int, next: Option<int>, operation: string, images: seq<Change>): Db {
    if !Resumes(db, stack, revision, next, operation, images) then db
    else SetPolicy(db, stack, db.policies[stack].(paused := "", revision := revision + 1, nextRunAt := next.value)).(
      operations := db.operations[operation := Operation(Succeeded, stack, None)],
      deployments := db.deployments[operation := Deployment(stack, true, "")],
      images := Select(Without(db.images, stack), stack, images))
  }

  function PruneImages(db: Db, stack: string, sources: map<string, string>): Db {
    db.(images := map k | k in db.images && !Outdated(db.images, stack, sources, k) :: db.images[k])
  }

  /** A selection made for another source reference than the service has now. */
  predicate Outdated(images: map<(string, string), Change>, stack: string, sources: map<string, string>, k: (string, string)) {
    k in images && k.0 == stack && (if k.1 in sources then sources[k.1] else "") != images[k].source
  }
}
