/** What holds over whole runs of the update protocol. */
module UpdateGuarantees {
  import opened Wrappers
  import opened UpdateTables
  import opened UpdateProtocol
  import opened UpdateSteps

  // ---------------------------------------------------------------- what the runs guarantee

  lemma AtMostOneUnfinishedRun(steps: seq<Step>, a: string, b: string)
    requires var runs := Reached(steps).db.runs;
             && a in runs && b in runs && !runs[a].phase.Terminal? && !runs[b].phase.Terminal?
             && runs[a].stack == runs[b].stack
    ensures a == b
  {
    EveryRunIsCoherent(steps);
    assert Apart(Reached(steps).db, a, b);
  }

  /** Only a commit that took effect and was reported as failed tears a run from its execution. */
  lemma {:induction false} TornOnlyByLostCommit(steps: seq<Step>, id: string)
    requires id in Reached(steps).torn
    ensures exists k :: 0 <= k < |steps| && steps[k] == EnterMutation(id, Lost)
  {
    var n := |steps| - 1;
    if id in Reached(steps[..n]).torn {
      TornOnlyByLostCommit(steps[..n], id);
      var k :| 0 <= k < n && steps[..n][k] == EnterMutation(id, Lost);
      assert steps[k] == EnterMutation(id, Lost);
    } else {
      TornByStep(Reached(steps[..n]), steps[n], id);
    }
  }

  lemma TornByStep(s: System, step: Step, id: string)
    requires id !in s.torn && id in Apply(s, step).torn
    ensures step == EnterMutation(id, Lost)
  {
  }

  /** Unless torn, an unfinished execution belongs to a run in the same phase, and only those phases have one. */
  lemma RunAndExecutionAgree(steps: seq<Step>, id: string)
    requires id !in Reached(steps).torn
    ensures InStep(Reached(steps).db, id)
  {
    EveryRunIsCoherent(steps);
    LockStepAgrees(Reached(steps), id);
  }

  /** A torn run that was finished while its execution is still applying. */
  predicate FinishedApart(s: System, id: string) {
    && id in s.torn && id in s.db.runs && s.db.runs[id].phase.Terminal?
    && id in s.db.executions && s.db.executions[id].phase.Applying?
  }

  /** In every reachable state a run is out of step with its execution if and only if it is such a run. */
  lemma OutOfStepExactly(steps: seq<Step>, id: string)
    ensures LockStep(Reached(steps).db, id) <==> !FinishedApart(Reached(steps), id)
  {
    EveryRunIsCoherent(steps);
    RowIsInStep(Reached(steps), id);
  }

  lemma RowIsInStep(s: System, id: string)
    requires Row(s, id)
    ensures LockStep(s.db, id) <==> !FinishedApart(s, id)
  {
  }

  predicate InStep(db: Db, id: string) {
    && (id in db.executions && !db.executions[id].phase.Terminal? ==>
          id in db.runs && db.runs[id].phase == db.executions[id].phase)
    && (id in db.runs && (db.runs[id].phase.Prepared? || Mutating(db.runs[id].phase)) ==>
          id in db.executions && db.executions[id].phase == db.runs[id].phase)
  }

  lemma LockStepAgrees(s: System, id: string)
    requires Row(s, id) && id !in s.torn
    ensures InStep(s.db, id)
  {
  }

  /** A run counts as updated only when the stored results confirm every stored change. */
  lemma UpdatedMeansVerified(steps: seq<Step>, id: string)
    requires id in Reached(steps).db.runs && Reached(steps).db.runs[id].outcome.Updated?
    ensures var db := Reached(steps).db;
            && id in db.executions
            && forall c :: c in db.executions[id].changes ==>
                 exists r :: r in db.executions[id].results && r.service == c.service && r.verified && r.image == c.image
  {
    EveryRunIsCoherent(steps);
    assert Row(Reached(steps), id);
    var e := Reached(steps).db.executions[id];
    forall c | c in e.changes ensures exists r :: r in e.results && r.service == c.service && r.verified && r.image == c.image {
      var i :| 0 <= i < |e.changes| && e.changes[i] == c;
      assert Confirms(e.results, e.changes[i]);
    }
  }

  /** Finishing a run keeps it in lock-step with its execution exactly when it is not mutating ... */
  lemma FinishKeepsLockStep(db: Db, id: string, outcome: Outcome, reason: string)
    requires LockStep(db, id) && id in db.runs
    ensures LockStep(FinishRun(db, id, outcome, reason), id) <==> !Mutating(db.runs[id].phase)
  {
  }

  /** ... and no caller finishes a mutating run: not a worker whose commits are reported, not recovery. */
  lemma FinishIsCalledBeforeMutation(steps: seq<Step>, id: string)
    requires var s := Reached(steps);
             (id in s.workers && s.workers[id].GivingUp? && id !in s.torn) || Leftover(s.db, id)
    ensures id in Reached(steps).db.runs && !Mutating(Reached(steps).db.runs[id].phase)
  {
    EveryRunIsCoherent(steps);
    FinisherIsSafe(Reached(steps), id);
  }

  lemma FinisherIsSafe(s: System, id: string)
    requires Row(s, id) && ((id in s.workers && s.workers[id].GivingUp? && id !in s.torn) || Leftover(s.db, id))
    ensures id in s.db.runs && !Mutating(s.db.runs[id].phase)
  {
  }

  /** The policy is not enabled or resumed. */
  predicate Tightens(p: Policy, q: Policy) {
    (q.enabled ==> p.enabled) && (p.paused != "" ==> q.paused != "")
  }

  /** Only saving the policy as enabled enables it, and only resuming it, or pausing it for no reason, clears its pause. */
  predicate OpensOnlyBy(p: Policy, q: Policy, step: Step, stack: string) {
    && (q.enabled && !p.enabled ==> step.EditPolicy? && step.stack == stack && step.enabled)
    && (p.paused != "" && q.paused == "" ==> (step.Resume? || (step.PausePolicy? && step.why == "")) && step.stack == stack)
  }

  lemma CompletionMovesPolicy(db: Db, operation: string, status: Status, c: Option<Completion>, stack: string)
    requires stack in db.policies && CompleteOperation(db, operation, status, c).Some?
    ensures var next := CompleteOperation(db, operation, status, c).value;
            stack in next.policies && PolicyMoved(db.policies[stack], next.policies[stack])
            && Tightens(db.policies[stack], next.policies[stack])
  {
  }

  lemma RecoveryMovesPolicy(db: Db, id: string, results: seq<Result>, stack: string)
    requires stack in db.policies
    ensures var next := Recovered(db, id, results);
            stack in next.policies && PolicyMoved(db.policies[stack], next.policies[stack])
            && Tightens(db.policies[stack], next.policies[stack])
  {
    if id in db.executions && Mutating(db.executions[id].phase) && RecoverExecution(db, id, results).Some? {
      var op := db.executions[id].operation;
      CompletionMovesPolicy(db, op, Failed, Some(Interruption(db, id, op, results)), stack);
    }
  }

  lemma EditMovesPolicy(db: Db, edited: string, enabled: bool, expression: string, expected: int, next: Option<int>, stack: string)
    requires stack in db.policies
    ensures var after := SavePolicy(db, edited, enabled, expression, expected, next);
            && stack in after.policies && PolicyMoved(db.policies[stack], after.policies[stack])
            && (after.policies[stack].enabled && !db.policies[stack].enabled ==> edited == stack && enabled)
            && (after.policies[stack].paused == db.policies[stack].paused)
  {
  }

  lemma ResumeMovesPolicy(db: Db, resumed: string, revision: int, next: Option<int>, operation: string, images: seq<Change>, stack: string)
    requires stack in db.policies
    ensures var after := ResumePolicy(db, resumed, revision, next, operation, images);
            && stack in after.policies && PolicyMoved(db.policies[stack], after.policies[stack])
            && after.policies[stack].enabled == db.policies[stack].enabled
            && (after.policies[stack].paused != db.policies[stack].paused ==> resumed == stack)
  {
  }

  lemma AdmitMovesPolicy(db: Db, due: string, listed: Policy, now: int, next: Option<int>, id: string, stack: string)
    requires stack in db.policies
    ensures var after := Admit(db, due, listed, now, next, id);
            stack in after.policies && PolicyMoved(db.policies[stack], after.policies[stack])
            && Tightens(db.policies[stack], after.policies[stack])
  {
  }

  lemma OtherMovesPolicy(s: System, step: Step, stack: string)
    requires stack in s.db.policies && !ByWorker(step)
    ensures var next := Apply(s, step).db;
            && stack in next.policies && PolicyMoved(s.db.policies[stack], next.policies[stack])
            && OpensOnlyBy(s.db.policies[stack], next.policies[stack], step, stack)
  {
    if step.EditPolicy? {
      EditMovesPolicy(s.db, step.stack, step.enabled, step.expression, step.expected, step.next, stack);
    } else if step.Resume? {
      ResumeMovesPolicy(s.db, step.stack, step.revision, step.next, step.operation, step.images, stack);
    } else if step.AdmitRun? {
      AdmitMovesPolicy(s.db, step.stack, step.listed, step.now, step.next, step.id, stack);
    } else if step.Recover? {
      RecoveryMovesPolicy(s.db, step.id, step.results, stack);
    } else if step.PausePolicy? {
      PauseMovesPolicy(s.db, step.stack, step.why, stack);
    } else if step.Reset? {
      ResetMovesPolicy(s.db, step.schedule, stack);
    } else {
      RestKeepsPolicies(s, step);
    }
  }

  lemma PauseMovesPolicy(db: Db, paused: string, reason: string, stack: string)
    requires stack in db.policies
    ensures var after := Pause(db, paused, reason);
            && stack in after.policies && PolicyMoved(db.policies[stack], after.policies[stack])
            && after.policies[stack].enabled == db.policies[stack].enabled
            && (after.policies[stack].paused == db.policies[stack].paused || (paused == stack && after.policies[stack].paused == reason))
  {
  }

  lemma ResetMovesPolicy(db: Db, schedule: string -> Option<int>, stack: string)
    requires stack in db.policies
    ensures var after := ResetAfterStartup(db, schedule);
            stack in after.policies && PolicyMoved(db.policies[stack], after.policies[stack])
            && Tightens(db.policies[stack], after.policies[stack])
  {
  }

  lemma RestKeepsPolicies(s: System, step: Step)
    requires !ByWorker(step) && !step.EditPolicy? && !step.Resume? && !step.AdmitRun? && !step.Recover?
    requires !step.PausePolicy? && !step.Reset?
    ensures Apply(s, step).db.policies == s.db.policies
  {
  }

  lemma WorkerMovesPolicy(s: System, step: Step, stack: string)
    requires stack in s.db.policies && ByWorker(step)
    ensures var next := Apply(s, step).db;
            stack in next.policies && PolicyMoved(s.db.policies[stack], next.policies[stack])
            && Tightens(s.db.policies[stack], next.policies[stack])
  {
    if step.id in s.workers && step.id in s.db.runs {
      var w := s.workers[step.id];
      if step.Complete? {
        if w.Observing? { CompleteMovesPolicy(s, step.id, w.operation, w.failed || !step.verified, step.results, step.commit, stack); }
      } else {
        WorkerSpares(s, step, w);
      }
    }
  }

  lemma CompleteMovesPolicy(s: System, id: string, operation: string, failed: bool, results: seq<Result>, commit: Commit, stack: string)
    requires stack in s.db.policies && id in s.db.runs
    ensures var next := CompleteStep(s, id, operation, failed, results, commit).db;
            stack in next.policies && PolicyMoved(s.db.policies[stack], next.policies[stack])
            && Tightens(s.db.policies[stack], next.policies[stack])
  {
    var status, c := if failed then Failed else Succeeded, Report(s.db, id, operation, failed, results);
    if CompleteOperation(s.db, operation, status, Some(c)).Some? {
      CompletionMovesPolicy(s.db, operation, status, Some(c), stack);
    }
  }

  lemma StepMovesPolicy(s: System, step: Step, stack: string)
    requires stack in s.db.policies
    ensures var next := Apply(s, step).db;
            && stack in next.policies && PolicyMoved(s.db.policies[stack], next.policies[stack])
            && OpensOnlyBy(s.db.policies[stack], next.policies[stack], step, stack)
  {
    if ByWorker(step) {
      WorkerMovesPolicy(s, step, stack);
    } else {
      OtherMovesPolicy(s, step, stack);
    }
  }

  /** The policy has moved on from `p`, if at all. */
  predicate PolicyHolds(s: System, stack: string, p: Policy) {
    stack in s.db.policies && PolicyMoved(p, s.db.policies[stack])
  }

  lemma PolicyAfterStep(steps: seq<Step>, i: nat, stack: string, p: Policy)
    requires i < |steps| && PolicyHolds(Reached(steps[..i]), stack, p)
    ensures PolicyHolds(Reached(steps[..i + 1]), stack, p)
  {
    NextState(steps, i);
    StepMovesPolicy(Reached(steps[..i]), steps[i], stack);
  }

  /** Policies stay, and no setting changes without a higher revision. */
  lemma {:induction false} PoliciesAdvance(steps: seq<Step>, i: nat, j: nat, stack: string, p: Policy)
    requires i <= j <= |steps| && PolicyHolds(Reached(steps[..i]), stack, p)
    ensures PolicyHolds(Reached(steps[..j]), stack, p)
    decreases j - i
  {
    if i < j {
      PolicyAfterStep(steps, i, stack, p);
      PoliciesAdvance(steps, i + 1, j, stack, p);
    }
  }

  lemma NextState(steps: seq<Step>, i: nat)
    requires i < |steps|
    ensures Reached(steps[..i + 1]) == Apply(Reached(steps[..i]), steps[i])
  {
    assert steps[..i + 1][..i] == steps[..i];
  }

  /** The run keeps what it was admitted with; one that was `closed` together with its execution is still `r`. */
  predicate RunHolds(s: System, id: string, r: Run, closed: bool) {
    && id in s.db.runs && s.db.runs[id].stack == r.stack && s.db.runs[id].policyRevision == r.policyRevision
    && (closed ==> s.db.runs[id] == r && r.phase.Terminal? && LockStep(s.db, id))
  }

  lemma HoldsAfter(s: System, step: Step, id: string, r: Run, closed: bool)
    requires Ok(s) && RunHolds(s, id, r, closed)
    ensures RunHolds(Apply(s, step), id, r, closed)
  {
    RowKept(s, step, id);
  }

  lemma RunAfterStep(steps: seq<Step>, i: nat, id: string, r: Run, closed: bool)
    requires i < |steps| && RunHolds(Reached(steps[..i]), id, r, closed)
    ensures RunHolds(Reached(steps[..i + 1]), id, r, closed)
  {
    NextState(steps, i);
    EveryRunIsCoherent(steps[..i]);
    HoldsAfter(Reached(steps[..i]), steps[i], id, r, closed);
  }

  lemma {:induction false} RunsStay(steps: seq<Step>, i: nat, j: nat, id: string, r: Run, closed: bool)
    requires i <= j <= |steps| && RunHolds(Reached(steps[..i]), id, r, closed)
    ensures RunHolds(Reached(steps[..j]), id, r, closed)
    decreases j - i
  {
    if i < j {
      RunAfterStep(steps, i, id, r, closed);
      RunsStay(steps, i + 1, j, id, r, closed);
    }
  }

  /** From the step that admitted a run to the step that lets it mutate the runtime, its stack's policy was
      enabled, not paused and at the admitted revision: nobody edited it in between. */
  lemma NoEditBeforeMutation(steps: seq<Step>, admitted: nat, entered: nat, id: string)
    requires admitted < entered < |steps|
    requires id !in Reached(steps[..admitted]).db.runs && id in Reached(steps[..admitted + 1]).db.runs
    requires id in Reached(steps[..entered]).db.runs && !Reached(steps[..entered]).db.runs[id].phase.Applying?
    requires id in Reached(steps[..entered + 1]).db.runs && Reached(steps[..entered + 1]).db.runs[id].phase.Applying?
    ensures var run := Reached(steps[..entered]).db.runs[id];
            && run.stack in Reached(steps[..entered]).db.archived && !Reached(steps[..entered]).db.archived[run.stack]
            && forall k :: admitted <= k <= entered ==>
                 var policies := Reached(steps[..k]).db.policies;
                 && run.stack in policies && policies[run.stack].enabled && policies[run.stack].paused == ""
                 && policies[run.stack].revision == run.policyRevision
  {
    EveryRunIsCoherent(steps[..admitted]);
    NextState(steps, admitted);
    RowKept(Reached(steps[..admitted]), steps[admitted], id);
    EveryRunIsCoherent(steps[..entered]);
    NextState(steps, entered);
    RowKept(Reached(steps[..entered]), steps[entered], id);
    RunsStay(steps, admitted + 1, entered, id, Reached(steps[..admitted + 1]).db.runs[id], false);
    var run := Reached(steps[..entered]).db.runs[id];
    forall k | admitted <= k <= entered ensures Permits(Reached(steps[..k]).db, run.stack, run.policyRevision) {
      PoliciesAdvance(steps, admitted, k, run.stack, Reached(steps[..admitted]).db.policies[run.stack]);
      PoliciesAdvance(steps, k, entered, run.stack, Reached(steps[..k]).db.policies[run.stack]);
    }
  }
}
