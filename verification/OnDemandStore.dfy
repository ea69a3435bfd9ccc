/** What the on-demand transactions keep across the tables, and the store that runs them. */
module OnDemandStore {
  import opened Wrappers
  import opened Sets
  import opened OnDemandGroups

  // ---------------------------------------------------------------- memberships

  /** The membership table says exactly what the policies say. */
  ghost predicate Mirrored(t: Tables) {
    && (forall k :: k in t.members ==>
          && t.members[k] in t.groups
          && t.groups[t.members[k]].stack == k.0 && k.1 in t.groups[t.members[k]].policy.members)
    && (forall id, m :: id in t.groups && m in t.groups[id].policy.members ==>
          (t.groups[id].stack, m) in t.members && t.members[(t.groups[id].stack, m)] == id)
  }

  lemma {:induction false} EnrolAdds(rows: map<(string, string), string>, stack: string, id: string, members: seq<string>)
    requires Enrol(rows, stack, id, members).Some?
    ensures var r := Enrol(rows, stack, id, members).value;
            && (forall k :: k in r <==> k in rows || (k.0 == stack && k.1 in members))
            && (forall k :: k in rows ==> r[k] == rows[k])
            && (forall m :: m in members ==> (stack, m) !in rows && r[(stack, m)] == id)
    decreases members
  {
    if members != [] {
      EnrolAdds(rows[(stack, members[0]) := id], stack, id, members[1..]);
    }
  }

  lemma SaveMirrored(t: Tables, stack: string, target: string, g: Group, rows: map<(string, string), string>)
    requires Mirrored(t) && g.stack == stack
    requires target in t.groups ==> t.groups[target].stack == stack
    requires Enrol(Without(t.members, target), stack, target, g.policy.members) == Some(rows)
    ensures Mirrored(Put(t, target, g).(members := rows))
  {
    EnrolAdds(Without(t.members, target), stack, target, g.policy.members);
  }

  /** Same groups on the same stacks with the same policies: memberships are untouched. */
  ghost predicate SamePolicies(t: Tables, u: Tables) {
    && u.members == t.members && u.groups.Keys == t.groups.Keys
    && forall id :: id in t.groups ==> u.groups[id].stack == t.groups[id].stack && u.groups[id].policy == t.groups[id].policy
  }

  lemma SamePoliciesMirrored(t: Tables, u: Tables)
    requires Mirrored(t) && SamePolicies(t, u)
    ensures Mirrored(u)
  {
  }

  lemma OthersKeepPolicies(t: Tables, step: Step)
    requires !step.DoSave? && !step.DoDelete?
    ensures SamePolicies(t, Apply(t, step).0)
  {
    if step.DoRecover? || step.DoManual? {
      SweepsKeepPolicies(t, step);
    }
  }

  lemma SweepsKeepPolicies(t: Tables, step: Step)
    requires step.DoRecover? || step.DoManual?
    ensures SamePolicies(t, Apply(t, step).0)
  {
  }

  lemma DeleteMirrored(t: Tables, stack: string, id: string, revision: nat)
    requires Mirrored(t)
    ensures Mirrored(DeleteGroup(t, stack, id, revision).0)
  {
  }

  lemma SaveStepMirrored(t: Tables, stack: string, target: Option<string>, newId: string, policy: Policy,
                         expected: nat, evidence: Evidence, phase: Phase)
    requires Mirrored(t)
    ensures Mirrored(SaveGroup(t, stack, target, newId, policy, expected, evidence, phase).0)
  {
    var u := SaveGroup(t, stack, target, newId, policy, expected, evidence, phase).0;
    if u != t {
      var id := if target.None? then newId else target.value;
      SaveMirrored(t, stack, id, SavedRow(t, stack, target, policy, evidence, phase), u.members);
    }
  }

  lemma MirroredStep(t: Tables, step: Step)
    requires Mirrored(t)
    ensures Mirrored(Apply(t, step).0)
  {
    if step.DoSave? {
      SaveStepMirrored(t, step.stack, step.target, step.newId, step.policy, step.expected, step.evidence, step.phase);
    } else if step.DoDelete? {
      DeleteMirrored(t, step.stack, step.id, step.revision);
    } else {
      OthersKeepPolicies(t, step);
      SamePoliciesMirrored(t, Apply(t, step).0);
    }
  }

  /** No service of a stack belongs to two groups. */
  lemma MembershipIsExclusive(t: Tables, a: string, b: string, service: string)
    requires Mirrored(t) && a in t.groups && b in t.groups && t.groups[a].stack == t.groups[b].stack
    requires service in t.groups[a].policy.members && service in t.groups[b].policy.members
    ensures a == b
  {
  }

  // ---------------------------------------------------------------- endpoints

  /** Dropping groups or stacks cannot break an allocation. */
  lemma AllocatedShrinks(t: Tables, u: Tables)
    requires Allocated(t) && ActiveGroups(u) <= ActiveGroups(t)
    requires forall id :: id in ActiveGroups(u) ==> u.groups[id].evidence == t.groups[id].evidence
    ensures Allocated(u)
  {
    forall e | e in Endpoints(u) ensures e in Endpoints(t) && At(u, e) == At(t, e) {
      assert e.0 in ActiveGroups(u);
    }
    SubsetSize(ActiveGroups(u), ActiveGroups(t));
    SubsetSize(Endpoints(u), Endpoints(t));
  }

  ghost predicate StacksKnown(t: Tables) {
    forall id :: id in t.groups ==> t.groups[id].stack in t.stacks
  }

  lemma StacksKnownStep(t: Tables, step: Step)
    requires StacksKnown(t)
    ensures StacksKnown(Apply(t, step).0)
  {
    match step
    case DoSave(stack, target, newId, policy, expected, evidence, phase) =>
    case _ =>
  }

  /** Only saving and resuming a group look for endpoints. */
  lemma RestShrinks(t: Tables, step: Step)
    requires !step.DoSave? && !step.DoResume? && StacksKnown(t)
    ensures var u := Apply(t, step).0;
            && ActiveGroups(u) <= ActiveGroups(t)
            && forall id :: id in ActiveGroups(u) ==> u.groups[id].evidence == t.groups[id].evidence
  {
  }

  lemma AllocatedStep(t: Tables, step: Step)
    requires Allocated(t) && StacksKnown(t)
    ensures Allocated(Apply(t, step).0)
  {
    if !step.DoSave? && !step.DoResume? {
      RestShrinks(t, step);
      AllocatedShrinks(t, Apply(t, step).0);
    }
  }

  // ---------------------------------------------------------------- every reachable state

  ghost predicate Ok(t: Tables) {
    PhasesOk(t) && Issued(t) && Mirrored(t) && StacksKnown(t) && Allocated(t)
  }

  /** In every run: phases, operations, holds and pauses fit together, memberships mirror the policies, and
      endpoints are allocated without overlap and within their limits. */
  lemma {:induction false} EveryRunIsOk(steps: seq<Step>)
    ensures Ok(Run(EMPTY, steps))
  {
    if steps == [] {
      assert ActiveGroups(EMPTY) == {} && Endpoints(EMPTY) == {};
    } else {
      EveryRunIsOk(steps[..|steps| - 1]);
      var before, step := Run(EMPTY, steps[..|steps| - 1]), steps[|steps| - 1];
      if FreshId(before, step) {
        PhasesStep(before, step);
        IssuedStep(before, step);
        MirroredStep(before, step);
        StacksKnownStep(before, step);
        AllocatedStep(before, step);
      }
    }
  }

  lemma {:induction false} RunAppend(t: Tables, a: seq<Step>, b: seq<Step>)
    ensures Run(t, a + b) == Run(Run(t, a), b)
    decreases |b|
  {
    if b == [] {
      assert a + b == a;
    } else {
      var n := |b| - 1;
      assert (a + b)[..|a + b| - 1] == a + b[..n];
      RunAppend(t, a, b[..n]);
    }
  }

  /** In every run: from an accepted manual action on, no automatic transition of an affected group begins
      before somebody resumes it. */
  lemma ManualActionSuspends(before: seq<Step>, manual: Step, after: seq<Step>, id: string, i: nat)
    requires manual.DoManual? && Affected(Run(EMPTY, before), id, manual.stack, manual.services)
    requires forall k :: 0 <= k < |after| ==> !(after[k].DoResume? && after[k].id == id)
    requires i < |after| && after[i].DoBegin? && after[i].id == id
    ensures Apply(Run(EMPTY, before + [manual] + after[..i]), after[i]).1 != Done
  {
    var t, m := Run(EMPTY, before), Run(EMPTY, before + [manual]);
    EveryRunIsOk(before);
    EveryRunIsOk(before + [manual]);
    assert (before + [manual])[..|before|] == before;
    assert m == Apply(t, manual).0;
    ManualSuspends(t, manual.stack, manual.services, manual.stop, id);
    SuspendedUntilResumed(m, after, id);
    RunAppend(EMPTY, before + [manual], after[..i]);
  }

  // ---------------------------------------------------------------- the bounds check

  method Clashes(b: Binding, bindings: seq<Binding>) returns (clash: bool)
    ensures clash <==> exists k :: 0 <= k < |bindings| && Overlaps(b, bindings[k])
  {
    for i := 0 to |bindings|
      invariant forall k :: 0 <= k < i ==> !Overlaps(b, bindings[k])
    {
      var other := bindings[i];
      if b.network == other.network && b.port == other.port &&
         (b.address == other.address || b.address.Unspecified? || other.address.Unspecified?) {
        return true;
      }
    }
    clash := false;
  }

  /** The endpoints of the groups in `ids` and the first `n` of group `id`. */
  function Covered(t: Tables, ids: set<string>, id: string, n: nat): set<(string, nat)> {
    set e | e in Endpoints(t) && (e.0 in ids || (e.0 == id && e.1 < n))
  }

  lemma CoveredStep(t: Tables, ids: set<string>, id: string, i: nat)
    requires id in ActiveGroups(t) && id !in ids && i < |t.groups[id].evidence.bindings|
    ensures (id, i) in Endpoints(t) && (id, i) !in Covered(t, ids, id, i)
    ensures Covered(t, ids, id, i + 1) == Covered(t, ids, id, i) + {(id, i)}
    ensures At(t, (id, i)) == t.groups[id].evidence.bindings[i]
  {
  }

  lemma CoveredGroup(t: Tables, ids: set<string>, id: string)
    requires id in ActiveGroups(t)
    ensures Covered(t, ids + {id}, id, 0) == Covered(t, ids, id, |t.groups[id].evidence.bindings|)
  {
  }

  /** The collected bindings are those of `owners`, each once, and none overlap. */
  ghost predicate Collected(t: Tables, covered: set<(string, nat)>, bindings: seq<Binding>, owners: seq<(string, nat)>) {
    && |owners| == |bindings| == |covered|
    && covered <= Endpoints(t)
    && (forall k :: 0 <= k < |owners| ==> owners[k] in covered && At(t, owners[k]) == bindings[k])
    && (forall e :: e in covered ==> e in owners)
    && (forall j, k :: 0 <= j < k < |bindings| ==> !Overlaps(bindings[k], bindings[j]))
  }

  lemma CollectOne(t: Tables, covered: set<(string, nat)>, bindings: seq<Binding>, owners: seq<(string, nat)>, e: (string, nat))
    requires Collected(t, covered, bindings, owners) && e in Endpoints(t) && e !in covered
    requires forall k :: 0 <= k < |bindings| ==> !Overlaps(At(t, e), bindings[k])
    ensures Collected(t, covered + {e}, bindings + [At(t, e)], owners + [e])
  {
    assert forall f :: f in owners + [e] <==> f in owners || f == e;
  }

  lemma ClashBreaks(t: Tables, covered: set<(string, nat)>, bindings: seq<Binding>, owners: seq<(string, nat)>, e: (string, nat), k: nat)
    requires Collected(t, covered, bindings, owners) && e in Endpoints(t) && e !in covered
    requires k < |bindings| && Overlaps(At(t, e), bindings[k])
    ensures !Allocated(t)
  {
    assert owners[k] in Endpoints(t) && owners[k] != e;
    assert Overlaps(At(t, e), At(t, owners[k]));
  }

  /** Adds the bindings of one group to those collected so far. */
  method CollectGroup(t: Tables, ids: set<string>, id: string, bindings0: seq<Binding>, ghost owners0: seq<(string, nat)>)
    returns (ok: bool, bindings: seq<Binding>, ghost owners: seq<(string, nat)>)
    requires id in ActiveGroups(t) && id !in ids
    requires Collected(t, Covered(t, ids, id, 0), bindings0, owners0)
    ensures ok ==> Collected(t, Covered(t, ids + {id}, id, 0), bindings, owners)
    ensures !ok ==> !Allocated(t)
  {
    bindings, owners := bindings0, owners0;
    var own := t.groups[id].evidence.bindings;
    for i := 0 to |own|
      invariant Collected(t, Covered(t, ids, id, i), bindings, owners)
    {
      CoveredStep(t, ids, id, i);
      var clash := Clashes(own[i], bindings);
      if clash {
        ghost var k: nat :| 0 <= k < |bindings| && Overlaps(own[i], bindings[k]);
        ClashBreaks(t, Covered(t, ids, id, i), bindings, owners, (id, i), k);
        return false, bindings, owners;
      }
      CollectOne(t, Covered(t, ids, id, i), bindings, owners, (id, i));
      bindings, owners := bindings + [own[i]], owners + [(id, i)];
    }
    CoveredGroup(t, ids, id);
    ok := true;
  }

  /** The check made inside every transaction that publishes endpoints. Its verdict is the same for
      every order in which the rows are read. */
  method CheckBounds(t: Tables) returns (ok: bool)
    ensures ok <==> Allocated(t)
  {
    var rest := ActiveGroups(t);
    var groups := 0;
    var bindings: seq<Binding> := [];
    ghost var owners: seq<(string, nat)> := [];
    ghost var done: set<string> := {};
    assert Covered(t, {}, "", 0) == {};
    while rest != {}
      invariant rest !! done && rest + done == ActiveGroups(t)
      invariant groups == |done| <= MAX_GROUPS && |bindings| <= MAX_ENDPOINTS
      invariant Collected(t, Covered(t, done, "", 0), bindings, owners)
      decreases |rest|
    {
      var id :| id in rest;
      groups := groups + 1;
      assert Covered(t, done, id, 0) == Covered(t, done, "", 0);
      ok, bindings, owners := CollectGroup(t, ActiveGroups(t) - rest, id, bindings, owners) by {
        assert ActiveGroups(t) - rest == done;
      }
      assert ActiveGroups(t) - rest == done;
      if !ok {
        return;
      }
      done, rest := done + {id}, rest - {id};
      assert Covered(t, done, "", 0) == Covered(t, done, id, 0);
      if groups > MAX_GROUPS || |bindings| > MAX_ENDPOINTS {
        SubsetSize(done, ActiveGroups(t));
        SubsetSize(Covered(t, done, "", 0), Endpoints(t));
        return false;
      }
    }
    assert Covered(t, done, "", 0) == Endpoints(t);
    CollectedAllocated(t, bindings, owners);
    ok := true;
  }

  lemma CollectedAllocated(t: Tables, bindings: seq<Binding>, owners: seq<(string, nat)>)
    requires Collected(t, Endpoints(t), bindings, owners)
    ensures forall e, f :: e in Endpoints(t) && f in Endpoints(t) && e != f ==> !Overlaps(At(t, e), At(t, f))
  {
    forall e, f | e in Endpoints(t) && f in Endpoints(t) && e != f ensures !Overlaps(At(t, e), At(t, f)) {
      var j :| 0 <= j < |owners| && owners[j] == e;
      var k :| 0 <= k < |owners| && owners[k] == f;
      if j < k {
        assert !Overlaps(bindings[k], bindings[j]);
      } else {
        assert !Overlaps(bindings[j], bindings[k]);
      }
    }
  }

  // ---------------------------------------------------------------- the store

  class GroupStore {
    var tables: Tables

    constructor ()
      ensures tables == EMPTY
    {
      tables := EMPTY;
    }

    /** Writes the membership rows of one group, one insert at a time. */
    method InsertMembers(rows0: map<(string, string), string>, stack: string, id: string, members: seq<string>)
      returns (ok: bool, rows: map<(string, string), string>)
      ensures var r := Enrol(rows0, stack, id, members);
              ok == r.Some? && (ok ==> rows == r.value)
    {
      rows := rows0;
      for i := 0 to |members|
        invariant Enrol(rows0, stack, id, members) == Enrol(rows, stack, id, members[i..])
      {
        assert members[i..][1..] == members[i + 1..];
        if (stack, members[i]) in rows {
          return false, rows;
        }
        rows := rows[(stack, members[i]) := id];
      }
      ok := true;
    }

    /** Creates or edits a group; an overlap or an exceeded limit rolls everything back. */
    method SaveGroup(stack: string, id: Option<string>, newId: string, policy: Policy, expected: nat,
                     evidence: Evidence, phase: Phase) returns (r: Outcome)
      modifies this
      ensures (tables, r) == OnDemandGroups.SaveGroup(old(tables), stack, id, newId, policy, expected, evidence, phase)
    {
      if !PolicyOk(policy) || !EvidenceOk(policy, evidence, phase) {
        return Invalid;
      }
      if (id.None? && expected != 0) || (id.Some? && expected < 1) {
        return Conflict;
      }
      if !StackActive(tables, stack) {
        return Missing;
      }
      if (if id.None? then newId in tables.groups else !Writable(tables, stack, id.value, expected)) {
        return Conflict;
      }
      var target := if id.None? then newId else id.value;
      var tx := Put(tables, target, SavedRow(tables, stack, id, policy, evidence, phase));
      var ok, rows := InsertMembers(Without(tables.members, target), stack, target, policy.members);
      if !ok {
        return Conflict;
      }
      tx := tx.(members := rows, issued := tables.issued + {target});
      var fits := CheckBounds(tx);
      if !fits {
        return Conflict;
      }
      tables := tx;
      r := Done;
    }

    method ResumeGroup(stack: string, id: string, revision: nat, evidence: Evidence, phase: Phase) returns (r: Outcome)
      modifies this
      ensures (tables, r) == OnDemandGroups.ResumeGroup(old(tables), stack, id, revision, evidence, phase)
    {
      if id !in tables.groups || tables.groups[id].stack != stack || !StackActive(tables, stack) {
        return Missing;
      }
      var g := tables.groups[id];
      if g.revision != revision {
        return Conflict;
      }
      if !EvidenceOk(g.policy, evidence, phase) {
        return Invalid;
      }
      if g.operation.Some? {
        return Conflict;
      }
      var tx := Put(tables, id, g.(hold := "", paused := "", phase := phase, evidence := evidence, revision := revision + 1));
      var fits := CheckBounds(tx);
      if !fits {
        return Conflict;
      }
      tables := tx;
      r := Done;
    }

    method BeginTransition(stack: string, id: string, revision: nat, action: Action, operation: string) returns (r: Outcome)
      modifies this
      ensures (tables, r) == OnDemandGroups.BeginTransition(old(tables), stack, id, revision, action, operation)
    {
      if operation == "" {
        return Invalid;
      }
      var from, to := Running, Stopping;
      if action == WakeUp {
        from, to := Sleeping, Starting;
      }
      if !Writable(tables, stack, id, revision) || !StackActive(tables, stack) {
        return Conflict;
      }
      var g := tables.groups[id];
      if g.phase != from || g.hold != "" || g.paused != "" || !g.policy.enabled {
        return Conflict;
      }
      tables := Put(tables, id, g.(phase := to, operation := Some(operation)));
      r := Done;
    }

    method CompleteOnDemand(stack: string, id: string, action: Action, operation: string, succeeded: bool,
                            phase: Phase, reason: string) returns (r: Outcome)
      modifies this
      ensures (tables, r) == CompleteTransition(old(tables), stack, id, action, operation, succeeded, phase, reason)
    {
      if id == "" || (phase != Running && phase != Sleeping && phase != Unknown) {
        return Invalid;
      }
      if !succeeded && phase != Unknown {
        return Invalid;
      }
      if phase == Unknown && reason == "" {
        return Invalid;
      }
      var from := Starting;
      if action == WakeUp {
        if phase == Sleeping {
          return Invalid;
        }
      } else {
        from := Stopping;
        if phase == Running {
          return Invalid;
        }
      }
      if id !in tables.groups {
        return Conflict;
      }
      var g := tables.groups[id];
      if g.stack != stack || g.operation != Some(operation) || g.phase != from {
        return Conflict;
      }
      tables := Put(tables, id, g.(phase := phase, paused := reason, operation := None));
      r := Done;
    }
  }
}
