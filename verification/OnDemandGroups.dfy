/** On-demand groups: the durable phase machine with its holds, pauses, interlocks and memberships. */
module OnDemandGroups {
  import opened Wrappers

  const MAX_GROUPS: nat := 64
  const MAX_ENDPOINTS: nat := 256
  const MAX_MEMBERS: nat := 8

  datatype Phase = Running | Sleeping | Starting | Stopping | Unknown

  datatype Action = WakeUp | Sleep

  datatype Address = Unspecified | Host(ip: string)

  datatype Binding = Binding(network: string, address: Address, port: nat)

  datatype Evidence = Evidence(digest: string, containers: seq<string>, bindings: seq<Binding>)

  /** `wellFormed` is the outcome of the range checks on the remaining policy settings. */
  datatype Policy = Policy(enabled: bool, members: seq<string>, wellFormed: bool)

  datatype Group = Group(stack: string, policy: Policy, revision: nat, phase: Phase,
                         hold: string, paused: string, evidence: Evidence, operation: Option<string>)

  /** The tables; `stacks` says of each stack whether it is archived, `issued` lists all group ids ever used. */
  datatype Tables = Tables(stacks: map<string, bool>, groups: map<string, Group>,
                           members: map<(string, string), string>, issued: set<string>)

  datatype Outcome = Done | Conflict | Invalid | Missing

  const EMPTY: Tables := Tables(map[], map[], map[], {})

  // ---------------------------------------------------------------- validation

  predicate Distinct(names: seq<string>) {
    forall i, j :: 0 <= i < j < |names| ==> names[i] != names[j]
  }

  predicate PolicyOk(p: Policy) {
    p.wellFormed && 1 <= |p.members| <= MAX_MEMBERS && Distinct(p.members)
  }

  predicate EvidenceOk(p: Policy, e: Evidence, phase: Phase) {
    && (phase == Running || phase == Sleeping)
    && e.digest != ""
    && |e.containers| == |p.members| && Distinct(e.containers) && "" !in e.containers
    && 1 <= |e.bindings| <= MAX_ENDPOINTS
  }

  predicate StackActive(t: Tables, stack: string) {
    stack in t.stacks && !t.stacks[stack]
  }

  // ---------------------------------------------------------------- endpoint bounds

  predicate Overlaps(a: Binding, b: Binding) {
    && a.network == b.network
    && a.port == b.port
    && (a.address == b.address || a.address.Unspecified? || b.address.Unspecified?)
  }

  function ActiveGroups(t: Tables): set<string> {
    set id | id in t.groups && StackActive(t, t.groups[id].stack)
  }

  /** Every published endpoint of an active stack: a group and an index into its bindings. */
  function Endpoints(t: Tables): set<(string, nat)> {
    set id, i | id in t.groups && StackActive(t, t.groups[id].stack) && 0 <= i < |t.groups[id].evidence.bindings| :: (id, i)
  }

  function At(t: Tables, e: (string, nat)): Binding
    requires e in Endpoints(t)
  {
    t.groups[e.0].evidence.bindings[e.1]
  }

  /** No two endpoints of active stacks overlap, and groups and endpoints stay within their limits. */
  ghost predicate Allocated(t: Tables) {
    && |ActiveGroups(t)| <= MAX_GROUPS
    && |Endpoints(t)| <= MAX_ENDPOINTS
    && forall e, f :: e in Endpoints(t) && f in Endpoints(t) && e != f ==> !Overlaps(At(t, e), At(t, f))
  }

  // ---------------------------------------------------------------- transactions

  function Put(t: Tables, id: string, g: Group): Tables {
    t.(groups := t.groups[id := g])
  }

  /** A row that an optimistic writer may change: same stack, same revision, no transition running. */
  predicate Writable(t: Tables, stack: string, id: string, revision: nat) {
    && id in t.groups
    && t.groups[id].stack == stack
    && t.groups[id].revision == revision
    && t.groups[id].operation.None?
  }

  function Without(rows: map<(string, string), string>, id: string): map<(string, string), string> {
    map k | k in rows && rows[k] != id :: rows[k]
  }

  /** Inserts one row per member; a service that already has a row is a conflict. */
  function Enrol(rows: map<(string, string), string>, stack: string, id: string, members: seq<string>): Option<map<(string, string), string>>
    decreases members
  {
    if members == [] then Some(rows)
    else if (stack, members[0]) in rows then None
    else Enrol(rows[(stack, members[0]) := id], stack, id, members[1..])
  }

  /** The row written by SaveGroup: a new group, or an edit that keeps phase, hold and pause. */
  function SavedRow(t: Tables, stack: string, id: Option<string>, policy: Policy, evidence: Evidence, phase: Phase): Group
    requires id.Some? ==> id.value in t.groups
  {
    if id.None? then Group(stack, policy, 1, phase, "", "", evidence, None)
    else
      var g := t.groups[id.value];
      g.(policy := policy, evidence := evidence, revision := g.revision + 1)
  }

  ghost function SaveGroup(t: Tables, stack: string, id: Option<string>, newId: string, policy: Policy,
                           expected: nat, evidence: Evidence, phase: Phase): (Tables, Outcome)
  {
    if !PolicyOk(policy) || !EvidenceOk(policy, evidence, phase) then (t, Invalid)
    else if id.None? != (expected == 0) then (t, Conflict)
    else if !StackActive(t, stack) then (t, Missing)
    else if (if id.None? then newId in t.groups else !Writable(t, stack, id.value, expected)) then (t, Conflict)
    else
      var target := if id.None? then newId else id.value;
      var rows := Enrol(Without(t.members, target), stack, target, policy.members);
      if rows.None? then (t, Conflict)
      else
        var next := Put(t, target, SavedRow(t, stack, id, policy, evidence, phase))
                    .(members := rows.value, issued := t.issued + {target});
        if Allocated(next) then (next, Done) else (t, Conflict)
  }

  function DeleteGroup(t: Tables, stack: string, id: string, revision: nat): (Tables, Outcome) {
    if !Writable(t, stack, id, revision) || !StackActive(t, stack) then (t, Conflict)
    else (t.(groups := t.groups - {id}, members := Without(t.members, id)), Done)
  }

  function HoldGroup(t: Tables, stack: string, id: string, revision: nat, reason: string): (Tables, Outcome) {
    if reason == "" then (t, Invalid)
    else if !Writable(t, stack, id, revision) || !StackActive(t, stack) then (t, Conflict)
    else (Put(t, id, t.groups[id].(hold := reason, revision := revision + 1)), Done)
  }

  function PauseGroup(t: Tables, stack: string, id: string, revision: nat, reason: string): (Tables, Outcome) {
    if reason == "" then (t, Invalid)
    else if !Writable(t, stack, id, revision) then (t, Conflict)
    else (Put(t, id, t.groups[id].(paused := reason, revision := revision + 1)), Done)
  }

  ghost function ResumeGroup(t: Tables, stack: string, id: string, revision: nat, evidence: Evidence, phase: Phase): (Tables, Outcome) {
    if id !in t.groups || t.groups[id].stack != stack || !StackActive(t, stack) then (t, Missing)
    else if t.groups[id].revision != revision then (t, Conflict)
    else if !EvidenceOk(t.groups[id].policy, evidence, phase) then (t, Invalid)
    else if t.groups[id].operation.Some? then (t, Conflict)
    else
      var next := Put(t, id, t.groups[id].(hold := "", paused := "", phase := phase, evidence := evidence, revision := revision + 1));
      if Allocated(next) then (next, Done) else (t, Conflict)
  }

  function From(action: Action): Phase {
    if action == WakeUp then Sleeping else Running
  }

  function Through(action: Action): Phase {
    if action == WakeUp then Starting else Stopping
  }

  function BeginTransition(t: Tables, stack: string, id: string, revision: nat, action: Action, operation: string): (Tables, Outcome) {
    if operation == "" then (t, Invalid)
    else if && Writable(t, stack, id, revision) && t.groups[id].phase == From(action)
            && t.groups[id].hold == "" && t.groups[id].paused == ""
            && t.groups[id].policy.enabled && StackActive(t, stack)
    then (Put(t, id, t.groups[id].(phase := Through(action), operation := Some(operation))), Done)
    else (t, Conflict)
  }

  /** The end of a transition, written with the completion of its operation. */
  function CompleteTransition(t: Tables, stack: string, id: string, action: Action, operation: string,
                              succeeded: bool, phase: Phase, reason: string): (Tables, Outcome)
  {
    if id == "" || phase == Starting || phase == Stopping then (t, Invalid)
    else if !succeeded && phase != Unknown then (t, Invalid)
    else if phase == Unknown && reason == "" then (t, Invalid)
    else if phase == From(action) then (t, Invalid)
    else if && id in t.groups && t.groups[id].stack == stack
            && t.groups[id].operation == Some(operation) && t.groups[id].phase == Through(action)
    then (Put(t, id, t.groups[id].(phase := phase, paused := reason, operation := None)), Done)
    else (t, Conflict)
  }

  const INTERRUPTED: string := "interrupted"
  const MANUAL: string := "manual action"
  const STOPPED: string := "manually stopped"

  predicate InFlight(g: Group) {
    g.operation.Some? || g.phase == Starting || g.phase == Stopping
  }

  function Interrupted(g: Group): Group {
    if InFlight(g) then g.(phase := Unknown, paused := INTERRUPTED, operation := None, revision := g.revision + 1) else g
  }

  function RecoverInterrupted(t: Tables): Tables {
    t.(groups := map id | id in t.groups :: Interrupted(t.groups[id]))
  }

  /** The groups a manual action suspends: those of the stack, or of the services it names. */
  predicate Affected(t: Tables, id: string, stack: string, services: set<string>) {
    && id in t.groups && t.groups[id].stack == stack && t.groups[id].operation.None?
    && (services == {} || exists s :: s in services && (stack, s) in t.members && t.members[(stack, s)] == id)
  }

  function Suspended(g: Group, stop: bool): Group {
    g.(paused := MANUAL, revision := g.revision + 1, hold := if stop then STOPPED else g.hold)
  }

  /** A manual runtime action accepted on a stack. */
  function Interlock(t: Tables, stack: string, services: set<string>, stop: bool): Tables {
    t.(groups := map id | id in t.groups ::
         if Affected(t, id, stack, services) then Suspended(t.groups[id], stop) else t.groups[id])
  }

  function CreateStack(t: Tables, stack: string): Tables {
    if stack in t.stacks then t else t.(stacks := t.stacks[stack := false])
  }

  function ArchiveStack(t: Tables, stack: string): Tables {
    if stack in t.stacks then t.(stacks := t.stacks[stack := true]) else t
  }

  // ---------------------------------------------------------------- runs

  datatype Step =
    | DoSave(stack: string, target: Option<string>, newId: string, policy: Policy, expected: nat, evidence: Evidence, phase: Phase)
    | DoDelete(stack: string, id: string, revision: nat)
    | DoHold(stack: string, id: string, revision: nat, reason: string)
    | DoPause(stack: string, id: string, revision: nat, reason: string)
    | DoResume(stack: string, id: string, revision: nat, evidence: Evidence, phase: Phase)
    | DoBegin(stack: string, id: string, revision: nat, action: Action, operation: string)
    | DoComplete(stack: string, id: string, action: Action, operation: string, succeeded: bool, phase: Phase, reason: string)
    | DoRecover
    | DoManual(stack: string, services: set<string>, stop: bool)
    | DoCreate(stack: string)
    | DoArchive(stack: string)

  ghost function Apply(t: Tables, step: Step): (Tables, Outcome) {
    match step
    case DoSave(stack, target, newId, policy, expected, evidence, phase) =>
      SaveGroup(t, stack, target, newId, policy, expected, evidence, phase)
    case DoDelete(stack, id, revision) => DeleteGroup(t, stack, id, revision)
    case DoHold(stack, id, revision, reason) => HoldGroup(t, stack, id, revision, reason)
    case DoPause(stack, id, revision, reason) => PauseGroup(t, stack, id, revision, reason)
    case DoResume(stack, id, revision, evidence, phase) => ResumeGroup(t, stack, id, revision, evidence, phase)
    case DoBegin(stack, id, revision, action, operation) => BeginTransition(t, stack, id, revision, action, operation)
    case DoComplete(stack, id, action, operation, succeeded, phase, reason) =>
      CompleteTransition(t, stack, id, action, operation, succeeded, phase, reason)
    case DoRecover => (RecoverInterrupted(t), Done)
    case DoManual(stack, services, stop) => (Interlock(t, stack, services, stop), Done)
    case DoCreate(stack) => (CreateStack(t, stack), Done)
    case DoArchive(stack) => (ArchiveStack(t, stack), Done)
  }

  /** Group ids are random, so a new one was never used before. */
  predicate FreshId(t: Tables, step: Step) {
    step.DoSave? && step.target.None? ==> step.newId !in t.issued
  }

  ghost function Run(t: Tables, steps: seq<Step>): Tables {
    if steps == [] then t
    else
      var before := Run(t, steps[..|steps| - 1]);
      if FreshId(before, steps[|steps| - 1]) then Apply(before, steps[|steps| - 1]).0 else before
  }

  // ---------------------------------------------------------------- the phase invariant

  /** An operation is recorded exactly while a transition runs; then the group is enabled, not held and
      not paused. An unknown phase is always paused. */
  predicate PhaseOk(g: Group) {
    && (g.operation.Some? <==> g.phase == Starting || g.phase == Stopping)
    && (g.operation.Some? ==> g.policy.enabled && g.hold == "" && g.paused == "")
    && (g.phase == Unknown ==> g.paused != "")
  }

  ghost predicate PhasesOk(t: Tables) {
    forall id :: id in t.groups ==> PhaseOk(t.groups[id])
  }

  lemma PhasesStep(t: Tables, step: Step)
    requires PhasesOk(t)
    ensures PhasesOk(Apply(t, step).0)
  {
    match step
    case DoSave(stack, target, newId, policy, expected, evidence, phase) =>
    case _ =>
  }

  // ---------------------------------------------------------------- what clears a hold or a pause

  /** Only a resume of this very group clears its hold or its pause. */
  lemma OnlyResumeClears(t: Tables, step: Step, id: string)
    requires PhasesOk(t) && FreshId(t, step) && id in t.groups && id in t.issued
    requires !(step.DoResume? && step.id == id)
    requires id in Apply(t, step).0.groups
    ensures t.groups[id].hold != "" ==> Apply(t, step).0.groups[id].hold != ""
    ensures t.groups[id].paused != "" ==> Apply(t, step).0.groups[id].paused != ""
  {
    match step
    case DoSave(stack, target, newId, policy, expected, evidence, phase) =>
    case _ =>
  }

  predicate Suspends(g: Group) {
    g.hold != "" || g.paused != ""
  }

  ghost predicate Issued(t: Tables) {
    forall id :: id in t.groups ==> id in t.issued
  }

  lemma IssuedStep(t: Tables, step: Step)
    requires Issued(t)
    ensures Issued(Apply(t, step).0) && t.issued <= Apply(t, step).0.issued
  {
    match step
    case DoSave(stack, target, newId, policy, expected, evidence, phase) =>
    case _ =>
  }

  /** A suspended group, or one that no longer exists, begins no transition. */
  lemma SuspendedCannotBegin(t: Tables, step: Step, id: string)
    requires step.DoBegin? && step.id == id
    requires id in t.groups ==> Suspends(t.groups[id])
    ensures Apply(t, step).1 != Done
  {
  }

  lemma StaysSuspended(t: Tables, step: Step, id: string)
    requires PhasesOk(t) && Issued(t) && FreshId(t, step) && id in t.issued
    requires id in t.groups ==> Suspends(t.groups[id])
    requires !(step.DoResume? && step.id == id)
    ensures id in Apply(t, step).0.groups ==> Suspends(Apply(t, step).0.groups[id])
  {
    if id in t.groups && id in Apply(t, step).0.groups {
      OnlyResumeClears(t, step, id);
    }
  }

  /** Over every run: from the moment a group is held or paused until somebody resumes it, no automatic
      transition of it starts. */
  lemma {:induction false} SuspendedUntilResumed(t: Tables, steps: seq<Step>, id: string)
    requires PhasesOk(t) && Issued(t) && id in t.issued
    requires id in t.groups ==> Suspends(t.groups[id])
    requires forall i :: 0 <= i < |steps| ==> !(steps[i].DoResume? && steps[i].id == id)
    ensures PhasesOk(Run(t, steps)) && Issued(Run(t, steps)) && id in Run(t, steps).issued
    ensures id in Run(t, steps).groups ==> Suspends(Run(t, steps).groups[id])
    ensures forall i :: 0 <= i < |steps| && steps[i].DoBegin? && steps[i].id == id ==>
              Apply(Run(t, steps[..i]), steps[i]).1 != Done
  {
    if steps != [] {
      var n := |steps| - 1;
      var init, last := steps[..n], steps[n];
      SuspendedUntilResumed(t, init, id);
      var before := Run(t, init);
      if FreshId(before, last) {
        PhasesStep(before, last);
        IssuedStep(before, last);
        StaysSuspended(before, last, id);
      }
      forall i | 0 <= i < |steps| && steps[i].DoBegin? && steps[i].id == id
        ensures Apply(Run(t, steps[..i]), steps[i]).1 != Done
      {
        if i < n {
          assert init[..i] == steps[..i];
        } else {
          SuspendedCannotBegin(before, last, id);
        }
      }
    }
  }

  /** An accepted manual action suspends every affected group that has no transition running. */
  lemma ManualSuspends(t: Tables, stack: string, services: set<string>, stop: bool, id: string)
    requires Affected(t, id, stack, services)
    ensures id in Interlock(t, stack, services, stop).groups
    ensures Interlock(t, stack, services, stop).groups[id].paused != ""
    ensures stop ==> Interlock(t, stack, services, stop).groups[id].hold != ""
  {
  }

  // ---------------------------------------------------------------- crash recovery

  /** Recovery pauses exactly the groups whose transition was cut off and leaves all others alone. */
  lemma RecoveryIsExact(t: Tables, id: string)
    requires id in t.groups
    ensures var g, after := t.groups[id], RecoverInterrupted(t).groups[id];
            && !InFlight(after)
            && (if g.operation.Some? || g.phase == Starting || g.phase == Stopping
                then after.paused != "" && after == g.(phase := Unknown, paused := after.paused, operation := None, revision := g.revision + 1)
                else after == g)
  {
  }
}
