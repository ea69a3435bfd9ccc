/** What the steps of automatic updates do, said of the rows themselves, and what may follow from them. */
module UpdateEffects {
  import opened Wrappers
  import opened UpdateTables
  import opened UpdateProtocol
  import opened UpdateSteps
  import opened UpdateGuarantees

  // ---------------------------------------------------------------- what keeps a stack from being updated

  datatype Cause = Withdrawn | Disabled | Suspended

  predicate Blocks(db: Db, stack: string, cause: Cause) {
    match cause
    case Withdrawn => stack in db.archived && db.archived[stack]
    case Disabled => stack in db.policies && !db.policies[stack].enabled
    case Suspended => stack in db.policies && db.policies[stack].paused != ""
  }

  /** The step takes effect, and is of the kind that ends the cause; a withdrawn stack stays withdrawn. */
  predicate Lifts(s: System, step: Step, stack: string, cause: Cause) {
    && Apply(s, step) != s
    && match cause
       case Withdrawn => false
       case Disabled => step.EditPolicy? && step.stack == stack && step.enabled
       case Suspended => (step.Resume? || (step.PausePolicy? && step.why == "")) && step.stack == stack
  }

  /** A run of the stack is added, or enters mutation. */
  predicate Advances(db: Db, next: Db, stack: string, id: string) {
    && id in next.runs && next.runs[id].stack == stack
    && (id !in db.runs || (next.runs[id].phase.Applying? && !db.runs[id].phase.Applying?))
  }

  lemma BlockedStep(s: System, step: Step, stack: string, cause: Cause)
    requires Ok(s) && Blocks(s.db, stack, cause)
    ensures !Lifts(s, step, stack, cause) ==> Blocks(Apply(s, step).db, stack, cause)
    ensures forall id :: !Advances(s.db, Apply(s, step).db, stack, id)
  {
    Frames(s, step, "");
    if stack in s.db.policies {
      StepMovesPolicy(s, step, stack);
    }
    forall id ensures !Advances(s.db, Apply(s, step).db, stack, id) {
      RowKept(s, step, id);
    }
  }

  /** Step `k` of the run advances no run of the stack. */
  ghost predicate Rests(steps: seq<Step>, k: nat, stack: string)
    requires k < |steps|
  {
    forall id :: !Advances(Reached(steps[..k]).db, Apply(Reached(steps[..k]), steps[k]).db, stack, id)
  }

  predicate BlockedAt(steps: seq<Step>, k: nat, stack: string, cause: Cause)
    requires k <= |steps|
  {
    Blocks(Reached(steps[..k]).db, stack, cause)
  }

  /** Step `k` of the run ends the cause. */
  predicate LiftsAt(steps: seq<Step>, k: nat, stack: string, cause: Cause)
    requires k < |steps|
  {
    Lifts(Reached(steps[..k]), steps[k], stack, cause)
  }

  lemma BlockedAfter(steps: seq<Step>, k: nat, stack: string, cause: Cause)
    requires k < |steps| && BlockedAt(steps, k, stack, cause)
    ensures !LiftsAt(steps, k, stack, cause) ==> BlockedAt(steps, k + 1, stack, cause)
    ensures Rests(steps, k, stack)
  {
    NextState(steps, k);
    EveryRunIsCoherent(steps[..k]);
    BlockedStep(Reached(steps[..k]), steps[k], stack, cause);
  }

  lemma {:induction false} StaysBlocked(steps: seq<Step>, i: nat, k: nat, stack: string, cause: Cause)
    requires i <= k <= |steps| && BlockedAt(steps, i, stack, cause)
    requires forall m :: i <= m < k ==> !LiftsAt(steps, m, stack, cause)
    ensures BlockedAt(steps, k, stack, cause)
    decreases k
  {
    if i < k {
      StaysBlocked(steps, i, k - 1, stack, cause);
      assert !LiftsAt(steps, k - 1, stack, cause);
      BlockedAfter(steps, k - 1, stack, cause);
    }
  }

  /** From the moment a stack is archived, or its policy disabled or paused, until a step that ends that very
      cause, no run of the stack is admitted and none enters mutation. */
  lemma BlockedUntilLifted(steps: seq<Step>, i: nat, k: nat, stack: string, cause: Cause)
    requires i <= k < |steps| && BlockedAt(steps, i, stack, cause)
    requires forall m :: i <= m < k ==> !LiftsAt(steps, m, stack, cause)
    ensures Rests(steps, k, stack)
  {
    StaysBlocked(steps, i, k, stack, cause);
    BlockedAfter(steps, k, stack, cause);
  }

  /** No two runs of a stack have the same slot of its schedule. */
  predicate OwnSlot(db: Db, a: string, b: string) {
    a in db.runs && b in db.runs && db.runs[a].stack == db.runs[b].stack && db.runs[a].scheduledAt == db.runs[b].scheduledAt ==> a == b
  }

  lemma SlotStep(s: System, step: Step, a: string, b: string)
    requires Ok(s) && OwnSlot(s.db, a, b)
    ensures OwnSlot(Apply(s, step).db, a, b)
  {
    RowKept(s, step, a);
    RowKept(s, step, b);
    Frames(s, step, a);
    Frames(s, step, b);
    SlotFrom(s.db, Apply(s, step).db, a, b);
  }

  lemma SlotFrom(db: Db, next: Db, a: string, b: string)
    requires OwnSlot(db, a, b) && Moved(db, next, a) && Moved(db, next, b)
    requires a != b ==> SameRun(db, next, a) || SameRun(db, next, b)
    ensures OwnSlot(next, a, b)
  {
  }

  /** In every run each slot is used once: whoever crashes, however often a due policy is listed. */
  lemma {:induction false} SlotsAreUsedOnce(steps: seq<Step>, a: string, b: string)
    ensures OwnSlot(Reached(steps).db, a, b)
  {
    if steps != [] {
      SlotsAreUsedOnce(steps[..|steps| - 1], a, b);
      EveryRunIsCoherent(steps[..|steps| - 1]);
      SlotStep(Reached(steps[..|steps| - 1]), steps[|steps| - 1], a, b);
    }
  }

  // ---------------------------------------------------------------- policies

  /** Only the policy of this stack is written. */
  predicate PolicyOnly(s: System, t: System, stack: string) {
    && t == s.(db := s.db.(policies := t.db.policies)) && stack in t.db.policies
    && t.db.policies == s.db.policies[stack := t.db.policies[stack]]
  }

  /** An edit is accepted on an active stack at its expected revision, zero standing for no policy yet. Then
      exactly what was submitted is stored, and a pause stays. */
  lemma EditIsExact(s: System, stack: string, enabled: bool, expression: string, expected: int, next: Option<int>)
    ensures var t, was := Apply(s, EditPolicy(stack, enabled, expression, expected, next)), s.db.policies;
            if next.Some? && stack in s.db.archived && !s.db.archived[stack]
               && (if stack in was then expected > 0 && was[stack].revision == expected else expected == 0)
            then && PolicyOnly(s, t, stack)
                 && t.db.policies[stack].enabled == enabled && t.db.policies[stack].expression == expression
                 && t.db.policies[stack].nextRunAt == next.value && t.db.policies[stack].revision == expected + 1
                 && t.db.policies[stack].paused == (if stack in was then was[stack].paused else "")
            else t == s
  {
  }

  /** A pause keeps all other settings and moves the revision, so that whoever read the policy before is refused. */
  lemma PauseIsExact(s: System, stack: string, why: string)
    ensures var t, was := Apply(s, PausePolicy(stack, why)), s.db.policies;
            if stack in was
            then && PolicyOnly(s, t, stack) && t.db.policies[stack].paused == why && t.db.policies[stack].revision == was[stack].revision + 1
                 && t.db.policies[stack].enabled == was[stack].enabled && t.db.policies[stack].expression == was[stack].expression
                 && t.db.policies[stack].nextRunAt == was[stack].nextRunAt
            else t == s
  {
  }

  /** Some expression has no next time. */
  predicate Unschedulable(db: Db, schedule: string -> Option<int>) {
    exists x :: x in db.policies && schedule(db.policies[x].expression).None?
  }

  /** Each policy has the next time of its own expression, and is otherwise as it was. */
  predicate Rescheduled(db: Db, policies: map<string, Policy>, schedule: string -> Option<int>) {
    && policies.Keys == db.policies.Keys
    && forall x :: x in db.policies ==>
         && policies[x] == db.policies[x].(nextRunAt := policies[x].nextRunAt)
         && schedule(db.policies[x].expression) == Some(policies[x].nextRunAt)
  }

  lemma ResetRows(db: Db, schedule: string -> Option<int>)
    requires !Unschedulable(db, schedule)
    ensures var after := ResetAfterStartup(db, schedule);
            after == db.(policies := after.policies) && Rescheduled(db, after.policies, schedule)
  {
  }

  /** Start-up moves every policy to its next time, or none. */
  lemma ResetIsExact(s: System, schedule: string -> Option<int>)
    ensures var t := Apply(s, Reset(schedule));
            if Unschedulable(s.db, schedule) then t == s
            else t == s.(db := s.db.(policies := t.db.policies)) && Rescheduled(s.db, t.db.policies, schedule)
  {
    if !Unschedulable(s.db, schedule) {
      ResetRows(s.db, schedule);
    }
    assert Apply(s, Reset(schedule)) == Put(s, ResetAfterStartup(s.db, schedule));
  }

  lemma AddIsExact(s: System, stack: string)
    ensures Apply(s, AddStack(stack)) ==
            s.(db := s.db.(archived := if stack in s.db.archived then s.db.archived else s.db.archived[stack := false]))
  {
  }

  lemma ArchiveIsExact(s: System, stack: string)
    ensures Apply(s, Archive(stack)) ==
            s.(db := s.db.(archived := if stack in s.db.archived then s.db.archived[stack := true] else s.db.archived))
  {
  }

  // ---------------------------------------------------------------- admission

  /** The listed policy is due, and the stored one is still the same. */
  predicate StillDue(db: Db, stack: string, listed: Policy, now: int) {
    && listed.enabled && listed.paused == "" && listed.nextRunAt != 0 && listed.nextRunAt <= now
    && stack in db.policies && db.policies[stack].enabled && db.policies[stack].paused == ""
    && db.policies[stack].revision == listed.revision && db.policies[stack].nextRunAt == listed.nextRunAt
    && stack in db.archived && !db.archived[stack]
  }

  predicate Unfinished(db: Db, stack: string) {
    exists id :: id in db.runs && db.runs[id].stack == stack && db.runs[id].phase != Terminal
  }

  predicate Used(db: Db, stack: string, at: int) {
    exists id :: id in db.runs && db.runs[id].stack == stack && db.runs[id].scheduledAt == at
  }

  /** What admission writes, for a policy that is still due. */
  predicate Admitted(db: Db, after: Db, stack: string, listed: Policy, next: int, id: string)
    requires stack in db.policies
  {
    && after == db.(policies := after.policies, runs := after.runs)
    && after.policies == db.policies[stack := db.policies[stack].(nextRunAt := next)]
    && if Used(db, stack, listed.nextRunAt) then after.runs == db.runs
       else && id in after.runs && after.runs == db.runs[id := after.runs[id]]
            && after.runs[id].stack == stack && after.runs[id].scheduledAt == listed.nextRunAt
            && after.runs[id].policyRevision == listed.revision
            && after.runs[id].operation == ""
            && if Unfinished(db, stack)
               then after.runs[id].phase == Terminal && after.runs[id].outcome == Skipped && after.runs[id].reason == "overlap"
               else after.runs[id].phase == Queued && after.runs[id].outcome == Undecided && after.runs[id].reason == ""
  }

  lemma AdmissionRows(db: Db, stack: string, listed: Policy, now: int, next: Option<int>, id: string)
    ensures var after := Admit(db, stack, listed, now, next, id);
            if !StillDue(db, stack, listed, now) || next.None? || id in db.runs then after == db && !Admits(db, stack, listed, now, next, id)
            else && Admitted(db, after, stack, listed, next.value, id)
                 && (Admits(db, stack, listed, now, next, id) <==> !Used(db, stack, listed.nextRunAt) && !Unfinished(db, stack))
  {
    assert Unfinished(db, stack) <==> Busy(db, stack);
  }

  /** A due policy is moved on. A free slot gets a run, which is queued with a worker unless an unfinished run
      of the stack makes it an overlap. */
  lemma AdmissionIsExact(s: System, stack: string, listed: Policy, now: int, next: Option<int>, id: string)
    ensures var t := Apply(s, AdmitRun(stack, listed, now, next, id));
            if !StillDue(s.db, stack, listed, now) || next.None? || id in s.db.runs then t == s
            else && Admitted(s.db, t.db, stack, listed, next.value, id) && t.torn == s.torn
                 && t.workers == if !Used(s.db, stack, listed.nextRunAt) && !Unfinished(s.db, stack) then s.workers[id := Enqueued] else s.workers
  {
    AdmissionRows(s.db, stack, listed, now, next, id);
  }

  /** The images of the stack are exactly these selections, and those of other stacks are as they were. */
  ghost predicate Reselected(was: map<(string, string), Change>, images: map<(string, string), Change>, stack: string, selections: seq<Change>) {
    && (forall c :: c in selections ==> (stack, c.service) in images && images[(stack, c.service)] == c)
    && (forall k :: k in images && k.0 == stack ==> images[k] in selections && images[k].service == k.1)
    && (forall k: (string, string) :: k.0 != stack ==> (k in images <==> k in was) && (k in was ==> images[k] == was[k]))
  }

  lemma SelectedRow(was: map<(string, string), Change>, stack: string, selections: seq<Change>, i: nat)
    requires i < |selections| && forall i, j :: 0 <= i < j < |selections| ==> selections[i].service != selections[j].service
    ensures var images := Select(Without(was, stack), stack, selections);
            (stack, selections[i].service) in images && images[(stack, selections[i].service)] == selections[i]
  {
    var k := (stack, selections[i].service);
    SelectedRows(Without(was, stack), stack, selections, k);
    assert Names(selections, k.1);
    var r := Select(Without(was, stack), stack, selections)[k];
    var j :| 0 <= j < |selections| && selections[j] == r;
    assert i == j;
  }

  lemma OtherRow(was: map<(string, string), Change>, stack: string, selections: seq<Change>, k: (string, string))
    ensures var images := Select(Without(was, stack), stack, selections);
            && (k.0 == stack && k in images ==> images[k] in selections && images[k].service == k.1)
            && (k.0 != stack ==> (k in images <==> k in was) && (k in was ==> images[k] == was[k]))
  {
    SelectedRows(Without(was, stack), stack, selections, k);
  }

  lemma ReselectedRows(was: map<(string, string), Change>, stack: string, selections: seq<Change>)
    requires forall i, j :: 0 <= i < j < |selections| ==> selections[i].service != selections[j].service
    ensures Reselected(was, Select(Without(was, stack), stack, selections), stack, selections)
  {
    forall i | 0 <= i < |selections|
      ensures var images := Select(Without(was, stack), stack, selections);
              (stack, selections[i].service) in images && images[(stack, selections[i].service)] == selections[i]
    {
      SelectedRow(was, stack, selections, i);
    }
    forall k: (string, string)
      ensures var images := Select(Without(was, stack), stack, selections);
              && (k.0 == stack && k in images ==> images[k] in selections && images[k].service == k.1)
              && (k.0 != stack ==> (k in images <==> k in was) && (k in was ==> images[k] == was[k]))
    {
      OtherRow(was, stack, selections, k);
    }
  }

  /** A resume is accepted for a paused policy at its revision. Then nothing but the pause, the next time and
      the revision changes in the policy, its operation and deployment are stored, and the images of the stack
      are those given, and no others. */
  lemma ResumeIsExact(s: System, stack: string, revision: int, next: Option<int>, operation: string, selections: seq<Change>)
    ensures var t, was := Apply(s, Resume(stack, revision, next, operation, selections)), s.db.policies;
            if && stack in was && was[stack].revision == revision && was[stack].paused != "" && next.Some?
               && operation !in s.db.operations && operation !in s.db.deployments && stack in s.db.archived
               && forall i, j :: 0 <= i < j < |selections| ==> selections[i].service != selections[j].service
            then && t == s.(db := s.db.(policies := t.db.policies, operations := t.db.operations,
                                        deployments := t.db.deployments, images := t.db.images))
                 && stack in t.db.policies && t.db.policies == was[stack := t.db.policies[stack]]
                 && t.db.policies[stack].paused == "" && t.db.policies[stack].nextRunAt == next.value
                 && t.db.policies[stack].revision == revision + 1
                 && t.db.policies[stack].enabled == was[stack].enabled && t.db.policies[stack].expression == was[stack].expression
                 && t.db.operations == s.db.operations[operation := Operation(Succeeded, stack, None)]
                 && t.db.deployments == s.db.deployments[operation := Deployment(stack, true, "")]
                 && Reselected(s.db.images, t.db.images, stack, selections)
            else t == s
  {
    if Distinct(selections) {
      ReselectedRows(s.db.images, stack, selections);
    }
  }

  /** After it the stack is updated again: once its time has come, an enabled policy of an active stack without
      an unfinished run, or a run in that slot, gets a queued run. */
  lemma ResumeLetsIn(s: System, resume: Step, listed: Policy, now: int, next: Option<int>, id: string)
    requires resume.Resume? && Apply(s, resume) != s
    requires var db := Apply(s, resume).db;
             && listed == db.policies[resume.stack] && listed.enabled && resume.stack in db.archived && !db.archived[resume.stack]
             && listed.nextRunAt != 0 && listed.nextRunAt <= now && next.Some? && id !in db.runs
             && !Unfinished(db, resume.stack) && !Used(db, resume.stack, listed.nextRunAt)
    ensures var t := Apply(Apply(s, resume), AdmitRun(resume.stack, listed, now, next, id));
            id in t.workers && id in t.db.runs && t.db.runs[id].phase == Queued && t.db.runs[id].stack == resume.stack
  {
  }

  // ---------------------------------------------------------------- the job

  predicate Committing(step: Step) {
    ByWorker(step) && !step.GiveUp? && !step.Lose?
  }

  /** The same transaction with another commit. */
  function Ending(step: Step, commit: Commit): Step {
    match step
    case Begin(id, expired, _) => Begin(id, expired, commit)
    case StartJob(id, operation, _) => StartJob(id, operation, commit)
    case RunJob(id, _) => RunJob(id, commit)
    case Prepare(id, changes, _) => Prepare(id, changes, commit)
    case EnterMutation(id, _) => EnterMutation(id, commit)
    case Changed(id, applied, _) => Changed(id, applied, commit)
    case Complete(id, verified, results, _) => Complete(id, verified, results, commit)
    case Finish(id, _) => Finish(id, commit)
    case Close(id, status, _) => Close(id, status, commit)
    case _ => step
  }

  /** A transaction that was rolled back writes nothing; one whose commit was lost has written what one that took effect writes. */
  lemma CommitsAreTransactions(s: System, step: Step)
    requires Committing(step)
    ensures step.commit == Refused ==> Apply(s, step).db == s.db
    ensures step.commit == Lost ==> Apply(s, step).db == Apply(s, Ending(step, Took)).db
  {
    if step.id in s.workers && step.id in s.db.runs {
      if step.Complete? || step.Finish? || step.Close? || step.Changed? {
        LateCommits(s, step, s.workers[step.id]);
      } else {
        EarlyCommits(s, step, s.workers[step.id]);
      }
    }
  }

  lemma EarlyCommits(s: System, step: Step, w: Worker)
    requires Committing(step) && !(step.Complete? || step.Finish? || step.Close? || step.Changed?) && step.id in s.db.runs
    ensures step.commit == Refused ==> WorkerStep(s, step, step.id, w).db == s.db
    ensures step.commit == Lost ==> WorkerStep(s, step, step.id, w).db == WorkerStep(s, Ending(step, Took), step.id, w).db
  {
  }

  lemma LateCommits(s: System, step: Step, w: Worker)
    requires (step.Complete? || step.Finish? || step.Close? || step.Changed?) && step.id in s.db.runs
    ensures step.commit == Refused ==> WorkerStep(s, step, step.id, w).db == s.db
    ensures step.commit == Lost ==> WorkerStep(s, step, step.id, w).db == WorkerStep(s, Ending(step, Took), step.id, w).db
  {
  }

  /** The stored policy of the run's stack is enabled, not paused and unedited, and the stack active. */
  predicate StillWanted(db: Db, id: string) {
    && id in db.runs && db.runs[id].stack in db.policies && db.policies[db.runs[id].stack].enabled
    && db.policies[db.runs[id].stack].paused == "" && db.policies[db.runs[id].stack].revision == db.runs[id].policyRevision
    && db.runs[id].stack in db.archived && !db.archived[db.runs[id].stack]
  }

  /** On any tables: a run starts checking only from the queue, saves its intent only before that or while checking,
      enters mutation only from there at the revision it was admitted with, and each only while it is wanted. */
  lemma GuardsAreExact(db: Db, id: string, operation: string, changes: seq<Change>, revision: int)
    ensures MarkChecking(db, id) != db ==> id in db.runs && db.runs[id].phase == Queued && StillWanted(db, id)
    ensures SavePrepared(db, id, operation, changes) != db ==>
              && id in db.runs && (db.runs[id].phase == Queued || db.runs[id].phase == Checking) && id !in db.executions
              && db.runs[id].stack in db.policies && db.policies[db.runs[id].stack].enabled && db.policies[db.runs[id].stack].paused == ""
              && db.policies[db.runs[id].stack].revision == db.runs[id].policyRevision
              && operation in db.operations && forall x :: x in db.executions ==> db.executions[x].operation != operation
    ensures MarkApplying(db, id, revision) != db ==>
              id in db.runs && db.runs[id].phase == Prepared && StillWanted(db, id) && db.runs[id].policyRevision == revision
  {
  }

  /** The execution's phase moves on, if it is the one it has to be in. */
  predicate Follows(db: Db, next: Db, id: string, from: Phase, to: Phase) {
    next.executions == if id in db.executions && db.executions[id].phase == from
                       then db.executions[id := db.executions[id].(phase := to)] else db.executions
  }

  /** On any tables: run and execution go on to verification from applying only. */
  lemma VerifyingIsExact(db: Db, id: string)
    ensures var next := MarkVerifying(db, id);
            && next == db.(runs := next.runs, executions := next.executions) && Follows(db, next, id, Applying, Verifying)
            && next.runs == if id in db.runs && db.runs[id].phase == Applying then db.runs[id := db.runs[id].(phase := Verifying)] else db.runs
  {
  }

  /** On any tables: a run that is not finished ends as told, and with it an execution that is no more than an intent. */
  lemma FinishingIsExact(db: Db, id: string, outcome: Outcome, reason: string)
    ensures var next := FinishRun(db, id, outcome, reason);
            if id !in db.runs || db.runs[id].phase == Terminal then next == db
            else && next == db.(runs := next.runs, executions := next.executions) && Follows(db, next, id, Prepared, Terminal)
                 && next.runs == db.runs[id := db.runs[id].(phase := Terminal, outcome := outcome, reason := reason)]
  {
  }

  /** A queued run in time starts checking if it is still wanted, and is given up otherwise. */
  lemma BeginIsExact(s: System, id: string, expired: bool)
    requires Row(s, id) && id in s.workers && s.workers[id].Enqueued?
    ensures var t := Apply(s, Begin(id, expired, Took));
            if expired then t == s.(workers := s.workers[id := GivingUp(None, Skipped, "capacity_deadline")])
            else if !StillWanted(s.db, id) then t == s.(workers := s.workers[id := GivingUp(None, Skipped, "policy_changed")])
            else t == s.(workers := s.workers[id := Inspecting], db := s.db.(runs := s.db.runs[id := s.db.runs[id].(phase := Checking)]))
  {
  }

  /** The job gets an operation of its own, waiting and for the stack; a known id is refused. */
  lemma StartIsExact(s: System, id: string, operation: string)
    requires id in s.db.runs && id in s.workers && s.workers[id].Inspecting?
    ensures Apply(s, StartJob(id, operation, Took)) ==
            if operation in s.db.operations then s.(workers := s.workers[id := GivingUp(None, Unsuccessful, "operation_not_accepted")])
            else s.(workers := s.workers[id := Starting(operation)],
                    db := s.db.(operations := s.db.operations[operation := Operation(Waiting, s.db.runs[id].stack, Some(id))]))
  {
  }

  /** Giving up ends the run with the outcome decided on, and its saved intent, unless it has ended already. */
  lemma GiveUpIsExact(s: System, id: string)
    requires Row(s, id) && id !in s.torn && id in s.workers && s.workers[id].GivingUp?
    ensures var t, w := Apply(s, Finish(id, Took)), s.workers[id];
            && t.workers == (if w.job.Some? then s.workers[id := Closing(w.job.value)] else s.workers - {id})
            && t.db == s.db.(runs := t.db.runs, executions := t.db.executions) && t.torn == s.torn
            && t.db.runs == s.db.runs[id := t.db.runs[id]]
            && (if s.db.runs[id].phase == Terminal then t.db.runs[id] == s.db.runs[id]
                else t.db.runs[id] == s.db.runs[id].(phase := Terminal, outcome := w.outcome, reason := w.reason))
            && t.db.executions == (if id in s.db.executions then s.db.executions[id := s.db.executions[id].(phase := Terminal)] else s.db.executions)
  {
  }

  /** With nobody at work, an unfinished run for which no execution is pending ends as interrupted. */
  lemma LeftoverIsExact(s: System, id: string)
    requires s.workers == map[]
    ensures Apply(s, FinishLeftover(id)) ==
            if id in s.db.runs && s.db.runs[id].phase != Terminal && (id in s.db.executions ==> s.db.executions[id].phase == Terminal)
            then s.(db := s.db.(runs := s.db.runs[id := s.db.runs[id].(phase := Terminal, outcome := Interrupted, reason := "restart_before_mutation")]))
            else s
  {
    FinishingIsExact(s.db, id, Interrupted, RESTARTED);
  }

  /** Closing stores the status of the operation and nothing else. */
  lemma CloseIsExact(s: System, id: string, operation: string, status: Status)
    requires Row(s, id) && id in s.workers && s.workers[id] == Closing(operation)
    ensures operation in s.db.operations
    ensures Apply(s, Close(id, status, Took)) ==
            s.(workers := s.workers - {id},
               db := s.db.(operations := s.db.operations[operation := s.db.operations[operation].(status := status)]))
  {
  }

  /** The results show the change verified, with its own image. */
  predicate Shown(results: seq<Result>, c: Change) {
    exists r :: r in results && r.service == c.service && r.verified && r.image == c.image
  }

  lemma ShownIsConfirmed(results: seq<Result>, c: Change)
    ensures Shown(results, c) <==> Confirms(results, c)
  {
    if Shown(results, c) {
      var r :| r in results && r.service == c.service && r.verified && r.image == c.image;
      var i :| 0 <= i < |results| && results[i] == r;
      assert results[i] == Result(c.service, true, c.image);
    }
  }

  /** The completion is of this operation, which waits for it, and for its stack. */
  predicate Fitting(db: Db, operation: string, c: Completion) {
    && c.run in db.executions && db.executions[c.run].operation == operation
    && (db.executions[c.run].phase == Applying || db.executions[c.run].phase == Verifying)
    && operation in db.operations && c.operation == operation && c.stack == db.operations[operation].scope
    && operation !in db.deployments && c.stack in db.archived
  }

  predicate Good(status: Status, c: Completion) {
    status == Succeeded && c.succeeded && c.pause == ""
  }

  lemma CompletesIsFitting(db: Db, operation: string, status: Status, c: Completion)
    ensures Completes(db, operation, status, c) <==>
            Fitting(db, operation, c) && (Good(status, c) ==> forall x :: x in db.executions[c.run].changes ==> Shown(c.results, x))
  {
    if c.run in db.executions {
      forall x ensures Shown(c.results, x) <==> Confirms(c.results, x) {
        ShownIsConfirmed(c.results, x);
      }
      assert AllVerified(db.executions[c.run].changes, c.results) <==>
             forall x :: x in db.executions[c.run].changes ==> Shown(c.results, x);
    }
  }

  /** Each service that is named has one of its changes selected, and every other row is as it was. */
  ghost predicate Upserted(was: map<(string, string), Change>, images: map<(string, string), Change>, stack: string, changes: seq<Change>) {
    forall k: (string, string) ::
      if k.0 == stack && exists c :: c in changes && c.service == k.1
      then k in images && images[k] in changes && images[k].service == k.1
      else (k in images <==> k in was) && (k in was ==> images[k] == was[k])
  }

  lemma UpsertedRows(was: map<(string, string), Change>, stack: string, changes: seq<Change>)
    ensures Upserted(was, Select(was, stack, changes), stack, changes)
  {
    var images := Select(was, stack, changes);
    forall k: (string, string)
      ensures if k.0 == stack && exists c :: c in changes && c.service == k.1
              then k in images && images[k] in changes && images[k].service == k.1
              else (k in images <==> k in was) && (k in was ==> images[k] == was[k])
    {
      SelectedRows(was, stack, changes, k);
      assert Names(changes, k.1) <==> exists c :: c in changes && c.service == k.1;
    }
  }

  lemma CompletionRows(db: Db, operation: string, status: Status, c: Completion)
    requires Completes(db, operation, status, c)
    ensures var r := CompleteOperation(db, operation, status, Some(c));
            r.Some? && Completed(db, operation, status, c, r.value)
  {
  }

  lemma CompletionImages(db: Db, operation: string, status: Status, c: Completion)
    requires Completes(db, operation, status, c)
    ensures var images := CompleteOperation(db, operation, status, Some(c)).value.images;
            if Good(status, c) then Upserted(db.images, images, c.stack, db.executions[c.run].changes) else images == db.images
  {
    UpsertedRows(db.images, c.stack, db.executions[c.run].changes);
  }

  /** What a completion leaves: run and execution ended with their results, status and deployment stored, and
      the policy moved by a pause. */
  predicate Completed(db: Db, operation: string, status: Status, c: Completion, next: Db)
    requires c.run in db.executions && operation in db.operations
  {
    && next.archived == db.archived
    && next.operations == db.operations[operation := db.operations[operation].(status := status)]
    && next.deployments == db.deployments[operation := Deployment(c.stack, c.succeeded, c.code)]
    && next.executions == db.executions[c.run := db.executions[c.run].(phase := Terminal, results := c.results)]
    && (c.run in db.runs ==>
          next.runs == db.runs[c.run := db.runs[c.run].(phase := Terminal, reason := c.pause,
                                                       outcome := if Good(status, c) then Updated else Unsuccessful)])
    && next.policies == (if c.pause == "" || c.stack !in db.policies then db.policies
                         else db.policies[c.stack := db.policies[c.stack].(paused := c.pause, revision := db.policies[c.stack].revision + 1)])
  }

  /** A completion is refused unless it fits, and as a success unless every change is shown. Only a success
      selects images. */
  lemma CompletionIsExact(db: Db, operation: string, status: Status, c: Completion)
    requires !(c.run in db.executions && db.executions[c.run].operation == operation && db.executions[c.run].phase == Terminal)
    ensures var r := CompleteOperation(db, operation, status, Some(c));
            && (r.Some? <==> Fitting(db, operation, c)
                             && (Good(status, c) ==> forall x :: x in db.executions[c.run].changes ==> Shown(c.results, x)))
            && (r.Some? ==> Completed(db, operation, status, c, r.value))
            && (r.Some? && Good(status, c) ==> Upserted(db.images, r.value.images, c.stack, db.executions[c.run].changes))
            && (r.Some? && !Good(status, c) ==> r.value.images == db.images)
  {
    CompletesIsFitting(db, operation, status, c);
    if Completes(db, operation, status, c) {
      CompletionRows(db, operation, status, c);
      CompletionImages(db, operation, status, c);
    }
  }

  /** A completion that comes again saves the status and changes nothing else. */
  lemma CompletionCountsOnce(db: Db, operation: string, status: Status, c: Completion)
    requires c.run in db.executions && db.executions[c.run].operation == operation && db.executions[c.run].phase == Terminal
    requires operation in db.operations
    ensures CompleteOperation(db, operation, status, Some(c)) ==
            Some(db.(operations := db.operations[operation := db.operations[operation].(status := status)]))
  {
  }

  // ---------------------------------------------------------------- images and other operations

  /** What a selection was made for, and what its service is configured with now; a missing service has no reference. */
  predicate UpToDate(image: Change, service: string, sources: map<string, string>) {
    image.source == if service in sources then sources[service] else ""
  }

  /** A prune removes exactly the selections of the stack that were made for another source reference. */
  lemma PruneIsExact(s: System, stack: string, sources: map<string, string>, k: (string, string))
    ensures var t := Apply(s, Prune(stack, sources));
            && t == s.(db := s.db.(images := t.db.images))
            && (k in t.db.images <==> k in s.db.images && (k.0 == stack ==> UpToDate(s.db.images[k], k.1, sources)))
            && (k in t.db.images ==> t.db.images[k] == s.db.images[k])
  {
  }

  lemma InvalidateIsExact(s: System, stack: string, k: (string, string))
    ensures var t := Apply(s, Invalidate(stack));
            && t == s.(db := s.db.(images := t.db.images))
            && (k in t.db.images <==> k in s.db.images && k.0 != stack)
            && (k in t.db.images ==> t.db.images[k] == s.db.images[k])
  {
  }

  /** Of an operation that no run owns, the status is saved, and its first deployment. */
  lemma ManualIsExact(s: System, operation: string, status: Status, deployment: Option<bool>)
    ensures var t := Apply(s, ManualFinish(operation, status, deployment));
            if operation !in s.db.operations || s.db.operations[operation].owner.Some? then t == s
            else && t == s.(db := s.db.(operations := t.db.operations, deployments := t.db.deployments))
                 && t.db.operations == s.db.operations[operation := s.db.operations[operation].(status := status)]
                 && t.db.deployments ==
                    if deployment.None? || operation in s.db.deployments then s.db.deployments
                    else s.db.deployments[operation := Deployment(s.db.operations[operation].scope, deployment.value, "")]
  {
  }
}
