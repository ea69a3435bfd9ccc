/** The stack and repository lock, its release closures, and the operations they are handed over to. */
module OperationLocks {
  import opened Wrappers

  const MAX_COMPLETED: nat := 128

  // ---------------------------------------------------------------- the coordinator

  datatype Hold = Hold(repository: bool, stack: string)

  datatype Lock = Lock(repository: bool, stacks: set<string>)

  const FREE: Lock := Lock(false, {})

  function Try(l: Lock, h: Hold): Option<Lock> {
    if h.repository && (l.repository || l.stacks != {}) then None
    else if !h.repository && l.repository then None
    else if h.stack != "" && h.stack in l.stacks then None
    else Some(Lock(l.repository || h.repository, if h.stack != "" then l.stacks + {h.stack} else l.stacks))
  }

  /** A call of the release closure: it frees what the hold names, whoever holds it now. */
  function Release(l: Lock, h: Hold): Lock {
    Lock(l.repository && !h.repository, l.stacks - {h.stack})
  }

  /** Two holds that may not exist together. */
  predicate Collide(a: Hold, b: Hold) {
    || (a.stack != "" && a.stack == b.stack)
    || (a.repository && (b.repository || b.stack != ""))
    || (b.repository && a.stack != "")
  }

  /** The holds of all closures that still have to be called. */
  type Holds = map<nat, Hold>

  ghost predicate Exclusive(holds: Holds) {
    forall x, y :: x in holds && y in holds && x != y ==> !Collide(holds[x], holds[y])
  }

  /** The lock records exactly what is held. */
  ghost predicate Reflects(l: Lock, holds: Holds) {
    && (l.repository <==> exists x :: x in holds && holds[x].repository)
    && (forall s :: s in l.stacks <==> s != "" && exists x :: x in holds && holds[x].stack == s)
  }

  lemma TryKeeps(l: Lock, holds: Holds, x: nat, h: Hold)
    requires Exclusive(holds) && Reflects(l, holds) && x !in holds && Try(l, h).Some?
    ensures Exclusive(holds[x := h]) && Reflects(Try(l, h).value, holds[x := h])
  {
    var next := holds[x := h];
    assert x in next && next[x] == h;
    forall y | y in holds ensures !Collide(h, holds[y]) && !Collide(holds[y], h) && next[y] == holds[y] {
      if holds[y].stack != "" {
        assert holds[y].stack in l.stacks;
      }
    }
    forall s | s in l.stacks ensures exists y :: y in next && next[y].stack == s {
      var y :| y in holds && holds[y].stack == s;
      assert next[y].stack == s;
    }
  }

  /** Of the holds that name something, the lock refuses exactly those that collide with one that is held. */
  lemma TryIsExact(l: Lock, holds: Holds, h: Hold)
    requires Exclusive(holds) && Reflects(l, holds) && (h.repository || h.stack != "")
    ensures Try(l, h).Some? <==> forall x :: x in holds ==> !Collide(h, holds[x])
  {
    forall x | x in holds ensures Collide(h, holds[x]) ==> Try(l, h).None? {
      if holds[x].stack != "" {
        assert holds[x].stack in l.stacks;
      }
    }
    if Try(l, h).None? {
      if l.repository {
        var x :| x in holds && holds[x].repository;
      } else if h.repository {
        var s :| s in l.stacks;
        var x :| x in holds && holds[x].stack == s;
      } else {
        var x :| x in holds && holds[x].stack == h.stack;
      }
    }
  }

  lemma ReleaseKeeps(l: Lock, holds: Holds, x: nat)
    requires Exclusive(holds) && Reflects(l, holds) && x in holds
    ensures Exclusive(holds - {x}) && Reflects(Release(l, holds[x]), holds - {x})
  {
    var h, next, m := holds[x], holds - {x}, Release(l, holds[x]);
    forall y | y in next ensures !Collide(h, holds[y]) {}
    if m.repository {
      var y :| y in holds && holds[y].repository;
      assert y in next && next[y].repository;
    }
    forall s ensures s in m.stacks <==> s != "" && exists y :: y in next && next[y].stack == s {
      if s in m.stacks {
        var y :| y in holds && holds[y].stack == s;
        assert y in next && next[y].stack == s;
      }
      if s != "" && exists y :: y in next && next[y].stack == s {
        var y :| y in next && next[y].stack == s;
        assert holds[y].stack == s;
      }
    }
  }

  /** The hold names something that is held. */
  ghost predicate Names(h: Hold, holds: Holds) {
    exists x :: x in holds && ((h.stack != "" && holds[x].stack == h.stack) || (h.repository && holds[x].repository))
  }

  /** A call that is not owed is harmless exactly when nothing it names is held. */
  lemma ExtraCallIsHarmlessExactly(l: Lock, holds: Holds, h: Hold)
    requires Reflects(l, holds)
    ensures Reflects(Release(l, h), holds) <==> !Names(h, holds)
  {
    var m := Release(l, h);
    if Names(h, holds) {
      var x :| x in holds && ((h.stack != "" && holds[x].stack == h.stack) || (h.repository && holds[x].repository));
      if h.stack != "" && holds[x].stack == h.stack {
        assert h.stack !in m.stacks;
      }
    } else if l.repository {
      var x :| x in holds && holds[x].repository;
      assert !h.repository;
    }
  }

  /** What the harm is: when the hold of a stack is freed under its holder, anybody gets that stack as well. */
  lemma ExtraCallLetsIn(l: Lock, holds: Holds, h: Hold, x: nat)
    requires Exclusive(holds) && Reflects(l, holds) && x in holds && !holds[x].repository
    requires h.stack != "" && holds[x].stack == h.stack
    ensures Try(l, Hold(false, h.stack)).None? && Try(Release(l, h), Hold(false, h.stack)).Some?
  {
    assert h.stack in l.stacks;
    if l.repository {
      var y :| y in holds && holds[y].repository;
      assert Collide(holds[x], holds[y]);
    }
  }

  // ---------------------------------------------------------------- closures and operations

  /** Who owes the call of a closure: the party that got it, the job it was handed over to, or nobody any more. */
  datatype Owner = Caller | Job(operation: string) | Spent

  datatype Closure = Closure(hold: Hold, calls: nat, owner: Owner)

  /** How an accepted operation's work ended, as far as the store is concerned. */
  datatype Attempt = StartNotSaved | Saved | NotSaved

  datatype Stage = Accepted | Running | Returning(attempt: Attempt) | Released(attempt: Attempt) | Finished(attempt: Attempt)

  datatype Operation = Operation(closure: Option<nat>, stage: Stage)

  /** `closures` keeps every closure ever returned, `operations` every operation ever accepted; `tracked`
      are those still in the jobs map. */
  datatype System = System(lock: Lock, closures: map<nat, Closure>, operations: map<string, Operation>,
                           tracked: set<string>, completed: seq<string>, stopped: bool)

  const START: System := System(FREE, map[], map[], {}, [], false)

  /** Anybody who has a closure can call it at any time, and pass it to any start of an operation. */
  datatype Step =
    | Acquire(closure: nat, hold: Hold)
    | Call(closure: nat)
    | StartTracked(operation: string, release: Option<nat>, created: bool)
    | MarkRunning(operation: string, saved: bool)
    | Complete(operation: string, saved: bool)
    | RunRelease(operation: string)
    | Finish(operation: string)
    | Shutdown

  function Owed(s: System): Holds {
    map c | c in s.closures && !s.closures[c].owner.Spent? :: s.closures[c].hold
  }

  function SetStage(s: System, operation: string, stage: Stage): System
    requires operation in s.operations
  {
    s.(operations := s.operations[operation := s.operations[operation].(stage := stage)])
  }

  /** Whether a start request is accepted; `created` says that the store took the new row. */
  predicate Accepts(s: System, operation: string, release: Option<nat>, created: bool) {
    !s.stopped && created && operation !in s.operations && (release.Some? ==> release.value in s.closures)
  }

  /** Acceptance hands a caller's closure over to the job; a rejection changes nothing. */
  function Start(s: System, operation: string, release: Option<nat>, created: bool): System {
    if !Accepts(s, operation, release, created) then s
    else
      s.(operations := s.operations[operation := Operation(release, Accepted)],
         tracked := s.tracked + {operation},
         closures := if release.Some? && s.closures[release.value].owner.Caller?
                     then s.closures[release.value := s.closures[release.value].(owner := Job(operation))] else s.closures)
  }

  /** One call of a closure by a party: it counts, it frees, and it settles what that party owed. */
  function Called(s: System, closure: nat, party: Owner): System
    requires closure in s.closures
  {
    var c := s.closures[closure];
    s.(lock := Release(s.lock, c.hold),
       closures := s.closures[closure := c.(calls := c.calls + 1, owner := if c.owner == party then Spent else c.owner)])
  }

  function ReleaseJob(s: System, operation: string): System
    requires operation in s.operations && s.operations[operation].stage.Returning?
  {
    var o := s.operations[operation];
    var next := SetStage(s, operation, Released(o.stage.attempt));
    if o.closure.Some? && o.closure.value in s.closures then Called(next, o.closure.value, Job(operation)) else next
  }

  function FinishJob(s: System, operation: string): System
    requires operation in s.operations && s.operations[operation].stage.Released?
  {
    var next := SetStage(s, operation, Finished(s.operations[operation].stage.attempt));
    var completed := s.completed + [operation];
    if |completed| > MAX_COMPLETED then next.(completed := completed[1..], tracked := s.tracked - {completed[0]})
    else next.(completed := completed)
  }

  function Apply(s: System, step: Step): System {
    match step
    case Acquire(closure, hold) =>
      if closure in s.closures || Try(s.lock, hold).None? then s
      else s.(lock := Try(s.lock, hold).value, closures := s.closures[closure := Closure(hold, 0, Caller)])
    case Call(closure) => if closure in s.closures then Called(s, closure, Caller) else s
    case StartTracked(operation, release, created) => Start(s, operation, release, created)
    case MarkRunning(operation, saved) =>
      if operation in s.operations && s.operations[operation].stage == Accepted
      then SetStage(s, operation, if saved then Running else Returning(StartNotSaved))
      else s
    case Complete(operation, saved) =>
      if operation in s.operations && s.operations[operation].stage == Running
      then SetStage(s, operation, Returning(if saved then Saved else NotSaved))
      else s
    case RunRelease(operation) =>
      if operation in s.operations && s.operations[operation].stage.Returning? then ReleaseJob(s, operation) else s
    case Finish(operation) =>
      if operation in s.operations && s.operations[operation].stage.Released? then FinishJob(s, operation) else s
    case Shutdown => s.(stopped := true)
  }

  /** The party that calls or passes on a closure owes its call. */
  predicate Proper(s: System, step: Step) {
    match step
    case Call(closure) => closure in s.closures ==> s.closures[closure].owner.Caller?
    case StartTracked(operation, release, created) =>
      release.Some? && release.value in s.closures ==> s.closures[release.value].owner.Caller?
    case _ => true
  }

  function Run(steps: seq<Step>): System {
    if steps == [] then START else Apply(Run(steps[..|steps| - 1]), steps[|steps| - 1])
  }

  predicate AllProper(steps: seq<Step>) {
    forall i :: 0 <= i < |steps| ==> Proper(Run(steps[..i]), steps[i])
  }

  // ---------------------------------------------------------------- invariants

  predicate Holding(stage: Stage) {
    stage.Accepted? || stage.Running? || stage.Returning?
  }

  /** A closure has been called if and only if nobody owes the call; a job that owes it has not released yet. */
  predicate ClosureOk(s: System, c: nat) {
    c in s.closures ==>
      && s.closures[c].calls == (if s.closures[c].owner.Spent? then 1 else 0)
      && (s.closures[c].owner.Job? ==>
            var op := s.closures[c].owner.operation;
            op in s.operations && s.operations[op].closure == Some(c) && Holding(s.operations[op].stage))
  }

  predicate JobOk(s: System, op: string) {
    op in s.operations && s.operations[op].closure.Some? ==>
      && s.operations[op].closure.value in s.closures
      && s.closures[s.operations[op].closure.value].owner == if Holding(s.operations[op].stage) then Job(op) else Spent
  }

  ghost predicate OwnersOk(s: System) {
    (forall c :: ClosureOk(s, c)) && (forall op :: JobOk(s, op))
  }

  ghost predicate LockOk(s: System) {
    Exclusive(Owed(s)) && Reflects(s.lock, Owed(s))
  }

  /** The completed list holds at most 128 finished operations, each once; everything unfinished is tracked. */
  ghost predicate ListOk(s: System) {
    && |s.completed| <= MAX_COMPLETED
    && (forall i, j :: 0 <= i < j < |s.completed| ==> s.completed[i] != s.completed[j])
    && (forall op :: op in s.completed ==> op in s.operations && s.operations[op].stage.Finished?)
    && (forall op :: op in s.tracked <==>
          op in s.operations && (!s.operations[op].stage.Finished? || op in s.completed))
  }

  lemma OwnersStep(s: System, step: Step)
    requires OwnersOk(s) && Proper(s, step)
    ensures OwnersOk(Apply(s, step))
  {
    var t := Apply(s, step);
    forall c ensures ClosureOk(t, c) { ClosureStep(s, step, c); }
    forall op ensures JobOk(t, op) { JobStep(s, step, op); }
  }

  lemma ClosureStep(s: System, step: Step, c: nat)
    requires OwnersOk(s) && Proper(s, step)
    ensures ClosureOk(Apply(s, step), c)
  {
    assert ClosureOk(s, c);
    if step.RunRelease? { assert JobOk(s, step.operation); }
  }

  lemma JobStep(s: System, step: Step, op: string)
    requires OwnersOk(s) && Proper(s, step)
    ensures JobOk(Apply(s, step), op)
  {
    assert JobOk(s, op);
    if step.RunRelease? { assert JobOk(s, step.operation); }
  }

  /** A call keeps the lock in order if and only if it was owed by the caller or names nothing that is held. */
  lemma CallKeepsExactly(s: System, closure: nat)
    requires LockOk(s) && closure in s.closures
    ensures LockOk(Apply(s, Call(closure))) <==> s.closures[closure].owner.Caller? || !Names(s.closures[closure].hold, Owed(s))
  {
    var t, h := Apply(s, Call(closure)), s.closures[closure].hold;
    if s.closures[closure].owner.Caller? {
      ReleaseKeeps(s.lock, Owed(s), closure);
      assert Owed(t) == Owed(s) - {closure};
    } else {
      ExtraCallIsHarmlessExactly(s.lock, Owed(s), h);
      assert Owed(t) == Owed(s);
    }
  }

  lemma LockStep(s: System, step: Step)
    requires OwnersOk(s) && LockOk(s) && Proper(s, step)
    ensures LockOk(Apply(s, step))
  {
    var t := Apply(s, step);
    if step.Acquire? && step.closure !in s.closures && Try(s.lock, step.hold).Some? {
      TryKeeps(s.lock, Owed(s), step.closure, step.hold);
      assert Owed(t) == Owed(s)[step.closure := step.hold];
    } else if step.Call? && step.closure in s.closures {
      CallKeepsExactly(s, step.closure);
    } else if step.RunRelease? && step.operation in s.operations && s.operations[step.operation].stage.Returning? {
      JobReleaseKeeps(s, step.operation);
    } else {
      assert Owed(t) == Owed(s);
    }
  }

  lemma JobReleaseKeeps(s: System, operation: string)
    requires OwnersOk(s) && LockOk(s) && operation in s.operations && s.operations[operation].stage.Returning?
    ensures LockOk(ReleaseJob(s, operation))
  {
    assert JobOk(s, operation);
    var t := ReleaseJob(s, operation);
    if s.operations[operation].closure.Some? {
      var c := s.operations[operation].closure.value;
      ReleaseKeeps(s.lock, Owed(s), c);
      assert Owed(t) == Owed(s) - {c};
    } else {
      assert Owed(t) == Owed(s);
    }
  }

  lemma ListStep(s: System, step: Step)
    requires ListOk(s)
    ensures ListOk(Apply(s, step))
  {
    match step
    case Finish(operation) =>
      if operation in s.operations && s.operations[operation].stage.Released? {
        FinishKeepsList(s, operation);
      }
    case _ =>
  }

  lemma FinishKeepsList(s: System, operation: string)
    requires ListOk(s) && operation in s.operations && s.operations[operation].stage.Released?
    ensures ListOk(FinishJob(s, operation))
  {
    var t := FinishJob(s, operation);
    var completed := s.completed + [operation];
    assert forall op :: op in completed <==> op in s.completed || op == operation;
    if |completed| > MAX_COMPLETED {
      assert completed == [completed[0]] + completed[1..];
      assert forall op :: op in completed[1..] <==> op in completed && op != completed[0];
    }
  }

  /** Over every interleaving in which closures are only called and passed on by those who owe the call:
      holds exclude each other, the lock mirrors them, and every closure is called at most once. */
  lemma {:induction false} EveryProperRun(steps: seq<Step>)
    requires AllProper(steps)
    ensures OwnersOk(Run(steps)) && LockOk(Run(steps))
  {
    if steps != [] {
      var init := steps[..|steps| - 1];
      forall i | 0 <= i < |init| ensures Proper(Run(init[..i]), init[i]) {
        assert init[..i] == steps[..i];
      }
      EveryProperRun(init);
      OwnersStep(Run(init), steps[|steps| - 1]);
      LockStep(Run(init), steps[|steps| - 1]);
    }
  }

  /** The bookkeeping of finished jobs does not depend on that. */
  lemma {:induction false} EveryRunIsListed(steps: seq<Step>)
    ensures ListOk(Run(steps))
  {
    if steps != [] {
      EveryRunIsListed(steps[..|steps| - 1]);
      ListStep(Run(steps[..|steps| - 1]), steps[|steps| - 1]);
    }
  }

  /** A stack has one holder, and while the repository is held no other stack is. */
  lemma NoTwoHolders(steps: seq<Step>, x: nat, y: nat)
    requires AllProper(steps) && x in Owed(Run(steps)) && y in Owed(Run(steps)) && x != y
    ensures var a, b := Owed(Run(steps))[x], Owed(Run(steps))[y];
            && (a.stack != "" ==> a.stack != b.stack)
            && (a.repository ==> !b.repository && b.stack == "")
  {
    EveryProperRun(steps);
  }

  /** The closure of a finished operation has been called exactly once; until the store took its completion,
      or refused it, it has not been called, and its stack is held. */
  lemma ReleasedExactlyOnce(steps: seq<Step>, operation: string)
    requires AllProper(steps) && operation in Run(steps).operations && Run(steps).operations[operation].closure.Some?
    ensures var s := Run(steps);
            var o := s.operations[operation];
            && o.closure.value in s.closures
            && (o.stage.Finished? ==> s.closures[o.closure.value].calls == 1 && o.closure.value !in Owed(s))
            && (Holding(o.stage) ==> s.closures[o.closure.value].calls == 0 && o.closure.value in Owed(s))
  {
    EveryProperRun(steps);
    assert JobOk(Run(steps), operation) && ClosureOk(Run(steps), Run(steps).operations[operation].closure.value);
  }

  /** Only finished jobs are evicted, so waiting for an accepted, unfinished operation always finds it. */
  lemma UnfinishedIsTracked(steps: seq<Step>, operation: string)
    requires operation in Run(steps).operations && !Run(steps).operations[operation].stage.Finished?
    ensures operation in Run(steps).tracked
  {
    EveryRunIsListed(steps);
  }

  /** What other parties do leaves a closure, and so the duty to call it, as it is. */
  lemma DutiesAreLocal(s: System, step: Step, c: nat)
    requires OwnersOk(s) && c in s.closures && s.closures[c].owner.Caller?
    requires step != Call(c) && !(step.StartTracked? && step.release == Some(c))
    ensures c in Apply(s, step).closures && Apply(s, step).closures[c] == s.closures[c]
  {
    if step.RunRelease? { assert JobOk(s, step.operation); }
  }

  // ---------------------------------------------------------------- acceptance and bookkeeping

  /** A start is accepted exactly while the service is not stopped, if the store took the row and the id is new.
      Then the job owes the call of a closure that the caller owed; one that it did not owe stays as it is. */
  lemma StartIsExact(s: System, operation: string, release: Option<nat>, created: bool)
    requires release.Some? ==> release.value in s.closures
    ensures var t := Apply(s, StartTracked(operation, release, created));
            && (t != s <==> !s.stopped && created && operation !in s.operations)
            && (t != s ==> operation in t.operations && t.operations == s.operations[operation := Operation(release, Accepted)]
                           && t.tracked == s.tracked + {operation} && t.lock == s.lock && !t.stopped && t.completed == s.completed
                           && t.closures == if release.None? || s.closures[release.value].owner != Caller then s.closures
                              else s.closures[release.value := s.closures[release.value].(owner := Job(operation))])
  {
    var t := Apply(s, StartTracked(operation, release, created));
    if !s.stopped && created && operation !in s.operations {
      assert operation in t.operations;
    }
  }

  /** After a shutdown no operation is ever accepted again. */
  lemma {:induction false} NothingStartsAfterShutdown(steps: seq<Step>, k: nat, operation: string)
    requires k < |steps| && steps[k] == Shutdown
    ensures Run(steps).stopped && (operation in Run(steps).operations <==> operation in Run(steps[..k]).operations)
    decreases |steps|
  {
    var n := |steps| - 1;
    if k < n {
      NothingStartsAfterShutdown(steps[..n], k, operation);
      assert steps[..n][..k] == steps[..k];
      StoppedStep(Run(steps[..n]), steps[n], operation);
    }
  }

  lemma StoppedStep(s: System, step: Step, operation: string)
    requires s.stopped
    ensures Apply(s, step).stopped && (operation in Apply(s, step).operations <==> operation in s.operations)
  {
  }

  /** How one operation moves: it runs or not, its completion is stored or not, then its closure is called, then it is finished. */
  lemma StagesAreExact(s: System, operation: string, answer: bool)
    requires operation in s.operations
    ensures var stage := s.operations[operation].stage;
            && Apply(s, MarkRunning(operation, answer)).operations ==
               s.operations[operation := s.operations[operation].(stage := if stage != Accepted then stage else if answer then Running else Returning(StartNotSaved))]
            && Apply(s, Complete(operation, answer)).operations ==
               s.operations[operation := s.operations[operation].(stage := if stage != Running then stage else Returning(if answer then Saved else NotSaved))]
            && Apply(s, RunRelease(operation)).operations ==
               s.operations[operation := s.operations[operation].(stage := if stage.Returning? then Released(stage.attempt) else stage)]
            && Apply(s, Finish(operation)).operations ==
               s.operations[operation := s.operations[operation].(stage := if stage.Released? then Finished(stage.attempt) else stage)]
  {
  }

  /** The list of finished operations keeps the newest: the last to finish is in it, and only the oldest leaves. */
  lemma NewestAreListed(s: System, operation: string)
    requires ListOk(s) && operation in s.operations && s.operations[operation].stage.Released?
    ensures var t := Apply(s, Finish(operation));
            && t.completed != [] && t.completed[|t.completed| - 1] == operation
            && t.completed == (if |s.completed| < 128 then s.completed else s.completed[1..]) + [operation]
            && (operation in t.tracked)
  {
    ListStep(s, Finish(operation));
    var t := Apply(s, Finish(operation));
    assert operation in t.completed;
  }

  // ---------------------------------------------------------------- the lock object

  class Coordinator {
    var repository: bool
    var stacks: set<string>

    ghost function View(): Lock
      reads this
    {
      Lock(repository, stacks)
    }

    constructor ()
      ensures View() == FREE
    {
      repository, stacks := false, {};
    }

    method Acquire(hold: Hold) returns (ok: bool)
      modifies this
      ensures ok == Try(old(View()), hold).Some?
      ensures View() == if ok then Try(old(View()), hold).value else old(View())
    {
      if hold.repository {
        if repository || |stacks| > 0 {
          return false;
        }
        repository := true;
      } else if repository {
        return false;
      }
      if hold.stack != "" {
        if hold.stack in stacks { // never with hold.repository: no stack was held then
          return false;
        }
        stacks := stacks + {hold.stack};
      }
      ok := true;
    }

    method Free(hold: Hold)
      modifies this
      ensures View() == Release(old(View()), hold)
    {
      if hold.repository {
        repository := false;
      }
      stacks := stacks - {hold.stack};
    }
  }

  /** The operation service. Its own fields are the coordinator its closures release, the jobs map, the list
      of completed ids and the stop flag; closures, and how far each goroutine got, are ghost. */
  class Service {
    const coordinator: Coordinator
    var jobs: set<string>
    var completed: seq<string>
    var stopped: bool
    ghost var closures: map<nat, Closure>
    ghost var operations: map<string, Operation>

    ghost function View(): System
      reads this, coordinator
    {
      System(coordinator.View(), closures, operations, jobs, completed, stopped)
    }

    ghost predicate Valid()
      reads this, coordinator
    {
      OwnersOk(View()) && LockOk(View()) && ListOk(View())
    }

    constructor ()
      ensures View() == START && Valid() && fresh(coordinator)
    {
      coordinator := new Coordinator();
      jobs, completed, stopped := {}, [], false;
      closures, operations := map[], map[];
    }

    /** Takes the lock; `closure` stands for the function returned. */
    method TryLock(hold: Hold, ghost closure: nat) returns (ok: bool)
      requires Valid() && closure !in closures
      modifies this, coordinator
      ensures Valid() && View() == Apply(old(View()), Acquire(closure, hold))
      ensures ok == Try(old(coordinator.View()), hold).Some?
    {
      ghost var before, step := View(), Step.Acquire(closure, hold);
      StepsKeep(before, step);
      ok := coordinator.Acquire(hold);
      if ok {
        closures := closures[closure := Closure(hold, 0, Caller)];
      }
    }

    /** Calls a closure that the caller owes. */
    method CallRelease(hold: Hold, ghost closure: nat)
      requires Valid() && closure in closures && closures[closure] == Closure(hold, 0, Caller)
      modifies this, coordinator
      ensures Valid() && View() == Apply(old(View()), Call(closure))
      ensures closures[closure] == Closure(hold, 1, Spent)
    {
      StepsKeep(View(), Call(closure));
      coordinator.Free(hold);
      closures := closures[closure := Closure(hold, 1, Spent)];
    }

    /** `created` is the store's answer; it refuses an id that it has already seen. */
    method StartOperation(operation: string, ghost release: Option<nat>, created: bool) returns (accepted: bool)
      requires Valid() && (created ==> operation !in operations)
      requires release.Some? ==> release.value in closures && closures[release.value].owner.Caller?
      modifies this
      ensures Valid() && View() == Apply(old(View()), StartTracked(operation, release, created))
      ensures accepted == Accepts(old(View()), operation, release, created)
    {
      ghost var before, step := View(), StartTracked(operation, release, created);
      StepsKeep(before, step);
      accepted := !stopped && created;
      if accepted {
        jobs := jobs + {operation};
        closures, operations := Apply(before, step).closures, Apply(before, step).operations;
      }
    }

    /** A step of an operation's goroutine before its deferred release: nothing but the stage changes. */
    ghost method Progress(step: Step)
      requires Valid() && (step.MarkRunning? || step.Complete?)
      modifies this
      ensures Valid() && View() == Apply(old(View()), step)
    {
      StepsKeep(View(), step);
      operations := Apply(View(), step).operations;
    }

    /** The goroutine up to its deferred release. */
    ghost method Work(operation: string, started: bool, saved: bool)
      requires Valid() && operation in operations && operations[operation].stage.Accepted?
      modifies this
      ensures Valid() && View() == SetStage(old(View()), operation, Returning(if !started then StartNotSaved else if saved then Saved else NotSaved))
    {
      Progress(MarkRunning(operation, started));
      if started {
        Progress(Complete(operation, saved));
      }
    }

    /** The deferred release; `hold` is what the closure captured. */
    method RunReleaseClosure(operation: string, hold: Option<Hold>)
      requires Valid() && operation in operations && operations[operation].stage.Returning?
      requires hold.Some? <==> operations[operation].closure.Some?
      requires hold.Some? ==> operations[operation].closure.value in closures
                              && closures[operations[operation].closure.value].hold == hold.value
      modifies this, coordinator
      ensures Valid() && View() == Apply(old(View()), RunRelease(operation))
    {
      ghost var before := View();
      StepsKeep(before, RunRelease(operation));
      if hold.Some? {
        coordinator.Free(hold.value);
      }
      closures, operations := ReleaseJob(before, operation).closures, ReleaseJob(before, operation).operations;
    }

    method Close(operation: string)
      requires Valid() && operation in operations && operations[operation].stage.Released?
      modifies this
      ensures Valid() && View() == Apply(old(View()), Finish(operation))
    {
      ghost var before := View();
      StepsKeep(before, Finish(operation));
      completed := completed + [operation];
      if |completed| > MAX_COMPLETED {
        jobs := jobs - {completed[0]};
        completed := completed[1..];
      }
      operations := FinishJob(before, operation).operations;
    }

    /** The goroutine of an accepted operation, run to its end: running state, work, completion, release,
        bookkeeping. Whatever the store answers, the closure is called once, after the store answered. */
    method Execute(operation: string, hold: Hold, ghost closure: nat, started: bool, saved: bool)
      requires Valid() && operation in operations && operations[operation] == Operation(Some(closure), Accepted)
      requires closure in closures && closures[closure].hold == hold
      modifies this, coordinator
      ensures Valid() && operation in operations
      ensures operations[operation] == Operation(Some(closure), Finished(if !started then StartNotSaved else if saved then Saved else NotSaved))
      ensures closures == old(closures)[closure := Closure(hold, 1, Spent)]
      ensures coordinator.View() == Release(old(coordinator.View()), hold)
    {
      assert JobOk(View(), operation) && ClosureOk(View(), closure);
      Work(operation, started, saved);
      RunReleaseClosure(operation, Some(hold));
      Close(operation);
    }

    /** The closures of one update check, on each of its paths: the first is called once before the images
        are prepared; the second is called once, unless an accepted operation has taken it over. */
    method CheckAndUpdate(stack: string, ghost first: nat, ghost second: nat, operation: string, script: CheckScript)
      returns (accepted: bool)
      requires Valid() && first !in closures && second !in closures && first != second && stack != ""
      requires script.created ==> operation !in operations
      modifies this, coordinator
      ensures Valid()
      ensures first in closures ==> closures[first] == Closure(Hold(false, stack), 1, Spent)
      ensures second in closures ==>
                closures[second] == if accepted then Closure(Hold(false, stack), 0, Job(operation)) else Closure(Hold(false, stack), 1, Spent)
      ensures accepted ==> second in closures && operation in operations && operations[operation] == Operation(Some(second), Accepted)
      ensures forall c :: c in old(closures) ==> c in closures && closures[c] == old(closures)[c]
    {
      var hold := Hold(false, stack);
      var ok := TryLock(hold, first);
      if !ok {
        return false;
      }
      CallRelease(hold, first); // called before the evidence's own error is looked at
      if !script.eligible || !script.prepared {
        return false;
      }
      accepted := StartUpdate(stack, second, operation, script);
    }

    /** The second half of a check. */
    method StartUpdate(stack: string, ghost second: nat, operation: string, script: CheckScript) returns (accepted: bool)
      requires Valid() && second !in closures && stack != "" && (script.created ==> operation !in operations)
      modifies this, coordinator
      ensures Valid()
      ensures second in closures ==>
                closures[second] == if accepted then Closure(Hold(false, stack), 0, Job(operation)) else Closure(Hold(false, stack), 1, Spent)
      ensures accepted ==> second in closures && operation in operations && operations[operation] == Operation(Some(second), Accepted)
      ensures forall c :: c in old(closures) ==> c in closures && closures[c] == old(closures)[c]
    {
      var hold := Hold(false, stack);
      var ok := TryLock(hold, second);
      if !ok {
        return false;
      }
      if !script.same || !script.outdated || !script.inTime {
        CallRelease(hold, second); // directly or deferred
        return false;
      }
      accepted := StartOperation(operation, Some(second), script.created);
      if !accepted {
        CallRelease(hold, second);
      }
    }
  }

  /** What one update check meets: eligible evidence, prepared images, evidence unchanged since, some image
      to update, time left, and the store taking the operation. */
  datatype CheckScript = CheckScript(eligible: bool, prepared: bool, same: bool, outdated: bool, inTime: bool, created: bool)

  lemma StepsKeep(s: System, step: Step)
    requires OwnersOk(s) && LockOk(s) && ListOk(s) && Proper(s, step)
    ensures OwnersOk(Apply(s, step)) && LockOk(Apply(s, step)) && ListOk(Apply(s, step))
  {
    OwnersStep(s, step);
    LockStep(s, step);
    ListStep(s, step);
  }
}
