/** What the on-demand transactions do, said of the rows themselves, and what may follow from them. */
module OnDemandEffects {
  import opened Wrappers
  import opened OnDemandGroups
  import opened OnDemandStore

  // ---------------------------------------------------------------- validity

  predicate Sensible(p: Policy) {
    p.wellFormed && 1 <= |p.members| <= 8 && forall i, j :: 0 <= i < j < |p.members| ==> p.members[i] != p.members[j]
  }

  /** One container for each member, and at least one endpoint. */
  predicate Complete(p: Policy, e: Evidence) {
    && e.digest != "" && |e.containers| == |p.members| && 1 <= |e.bindings| <= 256
    && (forall i :: 0 <= i < |e.containers| ==> e.containers[i] != "")
    && forall i, j :: 0 <= i < j < |e.containers| ==> e.containers[i] != e.containers[j]
  }

  predicate Settled(phase: Phase) {
    phase == Running || phase == Sleeping
  }

  lemma ValidityIsExact(p: Policy, e: Evidence, phase: Phase)
    ensures PolicyOk(p) <==> Sensible(p)
    ensures EvidenceOk(p, e, phase) <==> Complete(p, e) && Settled(phase)
  {
    assert "" !in e.containers <==> forall i :: 0 <= i < |e.containers| ==> e.containers[i] != "";
  }

  ghost predicate AllValid(t: Tables) {
    forall id :: id in t.groups ==> Sensible(t.groups[id].policy) && Complete(t.groups[id].policy, t.groups[id].evidence)
  }

  /** Groups stay as valid as they are where policy and evidence stay. */
  ghost predicate SameSettings(t: Tables, u: Tables) {
    forall id :: id in u.groups ==> id in t.groups && u.groups[id].policy == t.groups[id].policy && u.groups[id].evidence == t.groups[id].evidence
  }

  lemma SweepsKeepSettings(t: Tables, step: Step)
    requires step.DoRecover? || step.DoManual?
    ensures SameSettings(t, Apply(t, step).0)
  {
  }

  lemma RestKeepsSettings(t: Tables, step: Step)
    requires !step.DoSave? && !step.DoResume?
    ensures SameSettings(t, Apply(t, step).0)
  {
    if step.DoRecover? || step.DoManual? {
      SweepsKeepSettings(t, step);
    }
  }

  lemma ValidStep(t: Tables, step: Step)
    requires AllValid(t)
    ensures AllValid(Apply(t, step).0)
  {
    if step.DoSave? {
      ValidityIsExact(step.policy, step.evidence, step.phase);
    } else if step.DoResume? {
      if step.id in t.groups {
        ValidityIsExact(t.groups[step.id].policy, step.evidence, step.phase);
      }
    } else {
      RestKeepsSettings(t, step);
    }
  }

  /** In every run every stored group has a sensible policy, and evidence that is complete for it. */
  lemma {:induction false} EveryGroupIsValid(steps: seq<Step>)
    ensures AllValid(Run(EMPTY, steps))
  {
    if steps != [] {
      EveryGroupIsValid(steps[..|steps| - 1]);
      ValidStep(Run(EMPTY, steps[..|steps| - 1]), steps[|steps| - 1]);
    }
  }

  predicate Alive(t: Tables, stack: string) {
    stack in t.stacks && !t.stacks[stack]
  }

  /** Index `i` of a group's bindings is an endpoint of an active stack. */
  predicate Published(t: Tables, id: string, i: int) {
    id in t.groups && Alive(t, t.groups[id].stack) && 0 <= i < |t.groups[id].evidence.bindings|
  }

  /** One of the two listens where the other does. */
  predicate Collides(a: Binding, b: Binding) {
    a.network == b.network && a.port == b.port && (a.address == b.address || a.address == Unspecified || b.address == Unspecified)
  }

  ghost predicate Disjoint(t: Tables) {
    forall a, i, b, j :: Published(t, a, i) && Published(t, b, j) && (a, i) != (b, j) ==>
      !Collides(t.groups[a].evidence.bindings[i], t.groups[b].evidence.bindings[j])
  }

  lemma PublishedAreEndpoints(t: Tables, a: string, i: int)
    ensures Published(t, a, i) ==> (a, i) in Endpoints(t) && At(t, (a, i)) == t.groups[a].evidence.bindings[i]
  {
  }

  lemma DisjointExactly(t: Tables)
    ensures Disjoint(t) <==> forall e, f :: e in Endpoints(t) && f in Endpoints(t) && e != f ==> !Overlaps(At(t, e), At(t, f))
  {
    if Disjoint(t) {
      forall e, f | e in Endpoints(t) && f in Endpoints(t) && e != f ensures !Overlaps(At(t, e), At(t, f)) {
        assert Published(t, e.0, e.1) && Published(t, f.0, f.1);
      }
    } else {
      var a, i, b, j :| Published(t, a, i) && Published(t, b, j) && (a, i) != (b, j)
                        && Collides(t.groups[a].evidence.bindings[i], t.groups[b].evidence.bindings[j]);
      PublishedAreEndpoints(t, a, i);
      PublishedAreEndpoints(t, b, j);
      assert Overlaps(At(t, (a, i)), At(t, (b, j)));
    }
  }

  /** What the bounds check decides: at most 64 groups and 256 endpoints of active stacks, and no two endpoints
      that collide. */
  lemma BoundsAreExact(t: Tables)
    ensures Allocated(t) <==>
            && |set id | id in t.groups && Alive(t, t.groups[id].stack)| <= 64
            && |set id, i | id in t.groups && Alive(t, t.groups[id].stack) && 0 <= i < |t.groups[id].evidence.bindings| :: (id, i)| <= 256
            && Disjoint(t)
  {
    assert ActiveGroups(t) == set id | id in t.groups && Alive(t, t.groups[id].stack);
    assert Endpoints(t) == set id, i | id in t.groups && Alive(t, t.groups[id].stack) && 0 <= i < |t.groups[id].evidence.bindings| :: (id, i);
    DisjointExactly(t);
  }

  /** In every run two endpoints of active stacks on one network and port have different addresses, and neither
      listens on all of them. */
  lemma NoSharedEndpoint(steps: seq<Step>, a: string, i: nat, b: string, j: nat)
    requires var t := Run(EMPTY, steps);
             && a in t.groups && t.groups[a].stack in t.stacks && !t.stacks[t.groups[a].stack] && i < |t.groups[a].evidence.bindings|
             && b in t.groups && t.groups[b].stack in t.stacks && !t.stacks[t.groups[b].stack] && j < |t.groups[b].evidence.bindings|
    requires (a, i) != (b, j)
    ensures var t := Run(EMPTY, steps);
            var x, y := t.groups[a].evidence.bindings[i], t.groups[b].evidence.bindings[j];
            x.network == y.network && x.port == y.port ==>
              x.address != y.address && x.address != Unspecified && y.address != Unspecified
  {
    EveryRunIsOk(steps);
    var t := Run(EMPTY, steps);
    assert (a, i) in Endpoints(t) && (b, j) in Endpoints(t);
    assert !Overlaps(At(t, (a, i)), At(t, (b, j)));
  }

  // ---------------------------------------------------------------- one group's row

  /** Only the row of `id` is written. */
  predicate GroupOnly(t: Tables, u: Tables, id: string) {
    && id in t.groups && id in u.groups && u == t.(groups := u.groups) && u.groups == t.groups[id := u.groups[id]]
  }

  /** A writer that has seen the latest revision of a group of this stack, at rest. */
  predicate UpToDate(t: Tables, stack: string, id: string, revision: nat) {
    id in t.groups && t.groups[id].stack == stack && t.groups[id].revision == revision && t.groups[id].operation == None
  }

  lemma HoldIsExact(t: Tables, stack: string, id: string, revision: nat, reason: string)
    ensures var (u, r) := Apply(t, DoHold(stack, id, revision, reason));
            && (r == Done <==> reason != "" && UpToDate(t, stack, id, revision) && Alive(t, stack))
            && (r == Done ==> GroupOnly(t, u, id) && u.groups[id] == t.groups[id].(hold := reason, revision := revision + 1))
            && (r != Done ==> u == t)
  {
  }

  lemma PauseIsExact(t: Tables, stack: string, id: string, revision: nat, reason: string)
    ensures var (u, r) := Apply(t, DoPause(stack, id, revision, reason));
            && (r == Done <==> reason != "" && UpToDate(t, stack, id, revision))
            && (r == Done ==> GroupOnly(t, u, id) && u.groups[id] == t.groups[id].(paused := reason, revision := revision + 1))
            && (r != Done ==> u == t)
  {
  }

  /** A deleted group leaves no row and no membership behind, and takes nobody else's with it. */
  lemma DeleteIsExact(t: Tables, stack: string, id: string, revision: nat)
    ensures var (u, r) := Apply(t, DoDelete(stack, id, revision));
            && (r == Done <==> UpToDate(t, stack, id, revision) && Alive(t, stack))
            && (r == Done ==> u == t.(groups := u.groups, members := u.members)
                              && (forall x :: x in u.groups <==> x in t.groups && x != id)
                              && (forall x :: x in u.groups ==> u.groups[x] == t.groups[x])
                              && (forall k :: k in u.members <==> k in t.members && t.members[k] != id)
                              && (forall k :: k in u.members ==> u.members[k] == t.members[k]))
            && (r != Done ==> u == t)
  {
  }

  /** The group with what a resume writes. */
  function Resumed(g: Group, evidence: Evidence, phase: Phase): Group {
    Group(g.stack, g.policy, g.revision + 1, phase, "", "", evidence, None)
  }

  /** A resume by a writer that is up to date, with evidence that is complete and whose endpoints fit, clears
      hold and pause and takes over phase and evidence. */
  lemma ResumeIsExact(t: Tables, stack: string, id: string, revision: nat, evidence: Evidence, phase: Phase)
    ensures var (u, r) := Apply(t, DoResume(stack, id, revision, evidence, phase));
            && (r == Done <==> UpToDate(t, stack, id, revision) && Alive(t, stack) && Settled(phase)
                               && Complete(t.groups[id].policy, evidence)
                               && Allocated(t.(groups := t.groups[id := Resumed(t.groups[id], evidence, phase)])))
            && (r == Done ==> GroupOnly(t, u, id) && u.groups[id] == Resumed(t.groups[id], evidence, phase))
            && (r != Done ==> u == t)
  {
    if id in t.groups {
      ValidityIsExact(t.groups[id].policy, evidence, phase);
      if t.groups[id].operation == None {
        assert Resumed(t.groups[id], evidence, phase) ==
               t.groups[id].(hold := "", paused := "", phase := phase, evidence := evidence, revision := t.groups[id].revision + 1);
      }
    }
  }

  /** The transition that fits a phase. */
  function Next(phase: Phase): Action {
    if phase == Sleeping then WakeUp else Sleep
  }

  /** The counterpart of suspension until a resume: after one the group is suspended no more, and if its policy
      is enabled the transition that fits its phase begins. */
  lemma ResumeLetsIn(t: Tables, resume: Step, operation: string)
    requires resume.DoResume? && Apply(t, resume).1 == Done && operation != ""
    ensures var u := Apply(t, resume).0;
            && resume.id in u.groups && u.groups[resume.id].hold == "" && u.groups[resume.id].paused == ""
            && u.groups[resume.id].phase == resume.phase && u.groups[resume.id].evidence == resume.evidence
            && u.groups[resume.id].revision == t.groups[resume.id].revision + 1
            && (u.groups[resume.id].policy.enabled ==>
                  Apply(u, DoBegin(resume.stack, resume.id, u.groups[resume.id].revision, Next(resume.phase), operation)).1 == Done)
  {
    ResumeIsExact(t, resume.stack, resume.id, resume.revision, resume.evidence, resume.phase);
    var u := Apply(t, resume).0;
    BeginIsExact(u, resume.stack, resume.id, u.groups[resume.id].revision, Next(resume.phase), operation);
  }

  /** A wake begins from sleeping and goes through starting, a sleep from running through stopping; both only
      for an enabled group that is neither held nor paused, seen by an up-to-date writer. */
  lemma BeginIsExact(t: Tables, stack: string, id: string, revision: nat, action: Action, operation: string)
    ensures var (u, r) := Apply(t, DoBegin(stack, id, revision, action, operation));
            && (r == Done <==> operation != "" && UpToDate(t, stack, id, revision) && Alive(t, stack)
                               && t.groups[id].policy.enabled && t.groups[id].hold == "" && t.groups[id].paused == ""
                               && t.groups[id].phase == if action == WakeUp then Sleeping else Running)
            && (r == Done ==> GroupOnly(t, u, id)
                              && u.groups[id] == t.groups[id].(operation := Some(operation), phase := if action == WakeUp then Starting else Stopping))
            && (r != Done ==> u == t)
  {
  }

  /** What a transition may report: a wake the running group, a sleep the sleeping one, and either, with a
      reason, that the group is in an unknown state; a failure can only report that. */
  predicate Reportable(action: Action, succeeded: bool, phase: Phase, reason: string) {
    || (phase == Unknown && reason != "")
    || (succeeded && phase == if action == WakeUp then Running else Sleeping)
  }

  /** The end of a transition is taken from its own operation only. */
  lemma CompleteIsExact(t: Tables, stack: string, id: string, action: Action, operation: string, succeeded: bool, phase: Phase, reason: string)
    ensures var (u, r) := Apply(t, DoComplete(stack, id, action, operation, succeeded, phase, reason));
            && (r == Done <==> id != "" && Reportable(action, succeeded, phase, reason)
                               && id in t.groups && t.groups[id].stack == stack && t.groups[id].operation == Some(operation)
                               && t.groups[id].phase == if action == WakeUp then Starting else Stopping)
            && (r == Done ==> GroupOnly(t, u, id) && u.groups[id] == t.groups[id].(operation := None, phase := phase, paused := reason))
            && (r != Done ==> u == t)
  {
  }

  // ---------------------------------------------------------------- saving

  /** The row that saving leaves: a new group at rest, or the old one with policy and evidence replaced. */
  function Saved(t: Tables, stack: string, target: Option<string>, policy: Policy, evidence: Evidence, phase: Phase): Group
    requires target.Some? ==> target.value in t.groups
  {
    if target == None then Group(stack, policy, 1, phase, "", "", evidence, None)
    else
      var g := t.groups[target.value];
      Group(g.stack, policy, g.revision + 1, g.phase, g.hold, g.paused, evidence, g.operation)
  }

  /** Nobody else on the stack has one of these members. */
  ghost predicate Unclaimed(t: Tables, stack: string, id: string, members: seq<string>) {
    forall x, m :: x in t.groups && x != id && t.groups[x].stack == stack && m in t.groups[x].policy.members ==> m !in members
  }

  lemma {:induction false} EnrolSucceeds(rows: map<(string, string), string>, stack: string, id: string, members: seq<string>)
    requires forall i, j :: 0 <= i < j < |members| ==> members[i] != members[j]
    ensures Enrol(rows, stack, id, members).Some? <==> forall m :: m in members ==> (stack, m) !in rows
    decreases members
  {
    if members != [] {
      assert members == [members[0]] + members[1..];
      EnrolSucceeds(rows[(stack, members[0]) := id], stack, id, members[1..]);
      assert forall m :: m in members[1..] ==> m != members[0];
    }
  }

  lemma EnrolIfUnclaimed(t: Tables, stack: string, id: string, policy: Policy)
    requires Mirrored(t) && Sensible(policy) && (id in t.groups ==> t.groups[id].stack == stack)
    ensures Enrol(Without(t.members, id), stack, id, policy.members).Some? <==> Unclaimed(t, stack, id, policy.members)
  {
    EnrolSucceeds(Without(t.members, id), stack, id, policy.members);
  }

  /** Who may save: anybody a new group, with an unused id, and an up-to-date writer an old one. */
  predicate MaySave(t: Tables, stack: string, target: Option<string>, newId: string, expected: nat) {
    if target == None then expected == 0 && newId !in t.groups
    else expected != 0 && UpToDate(t, stack, target.value, expected)
  }

  /** Saving is accepted exactly for a sensible policy with complete evidence, on an active stack, by who may
      save, without a member claimed by another group, and if all endpoints then fit. */
  lemma SaveIsExact(t: Tables, stack: string, target: Option<string>, newId: string, policy: Policy, expected: nat, evidence: Evidence, phase: Phase)
    requires Mirrored(t)
    ensures var (u, r) := Apply(t, DoSave(stack, target, newId, policy, expected, evidence, phase));
            var id := if target == None then newId else target.value;
            && (r == Done <==> Sensible(policy) && Complete(policy, evidence) && Settled(phase) && Alive(t, stack)
                               && MaySave(t, stack, target, newId, expected) && Unclaimed(t, stack, id, policy.members)
                               && Allocated(t.(groups := t.groups[id := Saved(t, stack, target, policy, evidence, phase)])))
            && (r == Done ==> && u == t.(groups := u.groups, members := u.members, issued := t.issued + {id})
                              && u.groups == t.groups[id := Saved(t, stack, target, policy, evidence, phase)])
            && (r != Done ==> u == t)
  {
    ValidityIsExact(policy, evidence, phase);
    if MaySave(t, stack, target, newId, expected) && Sensible(policy) {
      var id := if target == None then newId else target.value;
      EnrolIfUnclaimed(t, stack, id, policy);
      SavedIsSavedRow(t, stack, target, policy, evidence, phase);
      var rows := Enrol(Without(t.members, id), stack, id, policy.members);
      if rows.Some? {
        MembersDoNotMatter(t.(groups := t.groups[id := Saved(t, stack, target, policy, evidence, phase)]), rows.value, t.issued + {id});
      }
    }
  }

  lemma SavedIsSavedRow(t: Tables, stack: string, target: Option<string>, policy: Policy, evidence: Evidence, phase: Phase)
    requires target.Some? ==> target.value in t.groups
    ensures SavedRow(t, stack, target, policy, evidence, phase) == Saved(t, stack, target, policy, evidence, phase)
  {
  }

  lemma MembersDoNotMatter(t: Tables, rows: map<(string, string), string>, issued: set<string>)
    ensures Allocated(t.(members := rows, issued := issued)) <==> Allocated(t)
  {
    var u := t.(members := rows, issued := issued);
    assert ActiveGroups(u) == ActiveGroups(t) && Endpoints(u) == Endpoints(t);
    assert forall e :: e in Endpoints(t) ==> At(u, e) == At(t, e);
  }

  // ---------------------------------------------------------------- manual actions

  /** The action names the stack as a whole, or one of the group's members. */
  predicate Concerns(g: Group, stack: string, services: set<string>) {
    g.stack == stack && (services == {} || exists m :: m in g.policy.members && m in services)
  }

  /** A manual action pauses exactly the groups at rest that it concerns, and a stop holds them as well; each
      moves on by a revision, so that writers who have not seen it are refused. */
  lemma ManualIsExact(t: Tables, stack: string, services: set<string>, stop: bool, id: string)
    requires Mirrored(t) && id in t.groups
    ensures var u := Apply(t, DoManual(stack, services, stop)).0;
            && u == t.(groups := u.groups) && u.groups.Keys == t.groups.Keys
            && if Concerns(t.groups[id], stack, services) && t.groups[id].operation == None
               then && u.groups[id].paused != "" && (stop ==> u.groups[id].hold != "") && (!stop ==> u.groups[id].hold == t.groups[id].hold)
                    && u.groups[id].revision == t.groups[id].revision + 1
                    && u.groups[id].(paused := "", hold := "", revision := 0) == t.groups[id].(paused := "", hold := "", revision := 0)
               else u.groups[id] == t.groups[id]
  {
    AffectedIsConcerned(t, stack, services, id);
  }

  lemma AffectedIsConcerned(t: Tables, stack: string, services: set<string>, id: string)
    requires Mirrored(t) && id in t.groups
    ensures Affected(t, id, stack, services) <==> Concerns(t.groups[id], stack, services) && t.groups[id].operation == None
  {
    if Affected(t, id, stack, services) && services != {} {
      var s :| s in services && (stack, s) in t.members && t.members[(stack, s)] == id;
      assert s in t.groups[id].policy.members;
    }
    if Concerns(t.groups[id], stack, services) && services != {} {
      var m :| m in t.groups[id].policy.members && m in services;
      assert (stack, m) in t.members && t.members[(stack, m)] == id;
    }
  }

  /** In every run: from an accepted manual action on, no automatic transition of a group it concerned begins
      before somebody resumes it. */
  lemma ConcernedIsSuspended(before: seq<Step>, manual: Step, after: seq<Step>, id: string, i: nat)
    requires manual.DoManual? && id in Run(EMPTY, before).groups && Run(EMPTY, before).groups[id].operation == None
    requires Concerns(Run(EMPTY, before).groups[id], manual.stack, manual.services)
    requires forall k :: 0 <= k < |after| ==> !(after[k].DoResume? && after[k].id == id)
    requires i < |after| && after[i].DoBegin? && after[i].id == id
    ensures Apply(Run(EMPTY, before + [manual] + after[..i]), after[i]).1 != Done
  {
    EveryRunIsOk(before);
    AffectedIsConcerned(Run(EMPTY, before), manual.stack, manual.services, id);
    ManualActionSuspends(before, manual, after, id, i);
  }

  // ---------------------------------------------------------------- phases and revisions

  /** How a step may move the phase of a group. */
  predicate Edge(p: Phase, q: Phase, step: Step) {
    || p == q
    || (step.DoBegin? && ((p == Sleeping && q == Starting && step.action == WakeUp) || (p == Running && q == Stopping && step.action == Sleep)))
    || (step.DoComplete? && ((p == Starting && (q == Running || q == Unknown)) || (p == Stopping && (q == Sleeping || q == Unknown))))
    || (step.DoRecover? && (p == Starting || p == Stopping) && q == Unknown)
    || (step.DoResume? && (q == Running || q == Sleeping))
  }

  /** Every step moves every group along the edges of the phase machine. Its revision never falls; settings,
      evidence and holds change with a higher revision only. */
  lemma GroupsMove(t: Tables, step: Step, id: string)
    requires PhasesOk(t) && Issued(t) && FreshId(t, step) && id in t.groups && id in Apply(t, step).0.groups
    ensures var g, h := t.groups[id], Apply(t, step).0.groups[id];
            && h.stack == g.stack && Edge(g.phase, h.phase, step)
            && (h.revision == g.revision || h.revision == g.revision + 1)
            && (h.policy != g.policy || h.evidence != g.evidence || h.hold != g.hold ==> h.revision == g.revision + 1)
  {
    if step.DoBegin? {
      BeginIsExact(t, step.stack, step.id, step.revision, step.action, step.operation);
    } else if step.DoComplete? {
      CompleteIsExact(t, step.stack, step.id, step.action, step.operation, step.succeeded, step.phase, step.reason);
    } else if step.DoResume? {
      ResumeIsExact(t, step.stack, step.id, step.revision, step.evidence, step.phase);
    } else if step.DoSave? {
      SavedMoves(t, step.stack, step.target, step.newId, step.policy, step.expected, step.evidence, step.phase, id);
    } else {
      RestMoves(t, step, id);
    }
  }

  lemma SavedMoves(t: Tables, stack: string, target: Option<string>, newId: string, policy: Policy, expected: nat, evidence: Evidence, phase: Phase, id: string)
    requires Issued(t) && (target.None? ==> newId !in t.issued) && id in t.groups
    ensures var u := SaveGroup(t, stack, target, newId, policy, expected, evidence, phase).0;
            && id in u.groups && u.groups[id].stack == t.groups[id].stack && u.groups[id].phase == t.groups[id].phase
            && (u.groups[id] == t.groups[id] || u.groups[id].revision == t.groups[id].revision + 1)
  {
  }

  lemma RestMoves(t: Tables, step: Step, id: string)
    requires PhasesOk(t) && id in t.groups && id in Apply(t, step).0.groups
    requires !(step.DoBegin? || step.DoComplete? || step.DoResume? || step.DoSave?)
    ensures var g, h := t.groups[id], Apply(t, step).0.groups[id];
            && h.stack == g.stack && Edge(g.phase, h.phase, step)
            && (h == g || h.revision == g.revision + 1)
  {
    if step.DoManual? || step.DoRecover? {
      SweepMoves(t, step, id);
    }
  }

  lemma SweepMoves(t: Tables, step: Step, id: string)
    requires PhasesOk(t) && id in t.groups && (step.DoManual? || step.DoRecover?)
    ensures var u := Apply(t, step).0;
            && id in u.groups && u.groups[id].stack == t.groups[id].stack && Edge(t.groups[id].phase, u.groups[id].phase, step)
            && (u.groups[id] == t.groups[id] || u.groups[id].revision == t.groups[id].revision + 1)
  {
  }

  lemma StacksAreExact(t: Tables, stack: string)
    ensures Apply(t, DoCreate(stack)).0 == t.(stacks := if stack in t.stacks then t.stacks else t.stacks[stack := false])
    ensures Apply(t, DoArchive(stack)).0 == t.(stacks := if stack in t.stacks then t.stacks[stack := true] else t.stacks)
  {
  }
}
