/** Dependency order of an on-demand group, and the start and stop sequences it drives. */
module DependencyOrder {
  import opened Sets

  type Name = string

  datatype Mark = Visiting | Done

  /** What the Compose project says: the services each service depends on, and the selection. */
  datatype Graph = Graph(dependsOn: map<Name, set<Name>>, selected: set<Name>) {

    /** Selected dependencies; an unknown service has none. */
    function Deps(name: Name): set<Name> {
      if name in dependsOn then dependsOn[name] * selected else {}
    }
  }

  predicate Distinct(names: seq<Name>) {
    forall i, j :: 0 <= i < j < |names| ==> names[i] != names[j]
  }

  function Members(names: seq<Name>): set<Name> {
    set n | n in names
  }

  /** Every listed service comes after all its selected dependencies. */
  predicate Sorted(g: Graph, order: seq<Name>) {
    && Distinct(order)
    && forall i :: 0 <= i < |order| ==> g.Deps(order[i]) <= Members(order[..i])
  }

  /** The project makes one service depend on another, which is selected. */
  predicate Depends(g: Graph, name: Name, on: Name) {
    name in g.dependsOn && on in g.dependsOn[name] && on in g.selected
  }

  /** A complete order: each selected service once, after its dependencies. */
  ghost predicate Topological(g: Graph, order: seq<Name>) {
    && Distinct(order) && (forall n :: n in order <==> n in g.selected)
    && forall i, on :: 0 <= i < |order| && Depends(g, order[i], on) ==> on in order[..i]
  }

  lemma TopologicalIsSorted(g: Graph, order: seq<Name>)
    ensures Topological(g, order) <==> Sorted(g, order) && Members(order) == g.selected
  {
    if Topological(g, order) {
      forall i, on | 0 <= i < |order| && on in g.Deps(order[i]) ensures on in Members(order[..i]) {
        assert Depends(g, order[i], on);
      }
    }
    if Sorted(g, order) && Members(order) == g.selected {
      forall i, on | 0 <= i < |order| && Depends(g, order[i], on) ensures on in order[..i] {
        assert on in g.Deps(order[i]) && on in Members(order[..i]);
      }
      assert forall n :: n in order <==> n in Members(order);
    }
  }

  /** A walk along dependency edges. */
  predicate Walk(g: Graph, path: seq<Name>) {
    forall i :: 0 <= i < |path| - 1 ==> Depends(g, path[i], path[i + 1])
  }

  predicate Cycle(g: Graph, path: seq<Name>) {
    |path| >= 2 && path[0] == path[|path| - 1] && path[0] in g.selected && Walk(g, path)
  }

  ghost predicate Cyclic(g: Graph) {
    exists path :: Cycle(g, path)
  }

  // ---------------------------------------------------------------- order excludes cycles

  lemma {:induction false} WalkDescends(g: Graph, order: seq<Name>, path: seq<Name>, at: nat) returns (end: nat)
    requires Sorted(g, order) && Walk(g, path) && |path| >= 1
    requires at < |order| && order[at] == path[0]
    ensures end <= at && order[end] == path[|path| - 1]
    ensures |path| >= 2 ==> end < at
  {
    if |path| == 1 {
      end := at;
    } else {
      assert Depends(g, path[0], path[1]);
      assert path[1] in g.Deps(path[0]);
      assert path[1] in Members(order[..at]);
      var next :| 0 <= next < at && order[next] == path[1];
      forall i | 0 <= i < |path| - 2 ensures Depends(g, path[1..][i], path[1..][i + 1]) {
        assert Depends(g, path[i + 1], path[i + 2]);
      }
      end := WalkDescends(g, order, path[1..], next);
    }
  }

  lemma TopologicalExcludesCycles(g: Graph, order: seq<Name>)
    requires Topological(g, order)
    ensures !Cyclic(g)
  {
    TopologicalIsSorted(g, order);
    forall path | |path| >= 2 && path[0] == path[|path| - 1] && path[0] in g.selected
      ensures !Walk(g, path)
    {
      if Walk(g, path) {
        var at :| 0 <= at < |order| && order[at] == path[0];
        var end := WalkDescends(g, order, path, at);
      }
    }
  }

  // ---------------------------------------------------------------- the search

  /** Marks and output of the three-colour search; `path` lists the services being visited. */
  ghost predicate Searching(g: Graph, marks: map<Name, Mark>, order: seq<Name>, path: seq<Name>) {
    && marks.Keys <= g.selected
    && Sorted(g, order)
    && Walk(g, path)
    && (forall n :: n in marks && marks[n] == Done <==> n in order)
    && (forall n :: n in marks && marks[n] == Visiting <==> n in path)
  }

  lemma BackEdge(g: Graph, path: seq<Name>, name: Name)
    requires Walk(g, path) && name in path && name in g.selected
    requires name in g.Deps(path[|path| - 1])
    ensures Cyclic(g)
  {
    var k :| 0 <= k < |path| && path[k] == name;
    var loop := path[k..] + [name];
    forall i | 0 <= i < |loop| - 1 ensures Depends(g, loop[i], loop[i + 1]) {
      if i < |loop| - 2 {
        assert Depends(g, path[k + i], path[k + i + 1]);
      }
    }
    assert Cycle(g, loop);
  }

  lemma SortedAppend(g: Graph, order: seq<Name>, name: Name)
    requires Sorted(g, order) && name !in order && g.Deps(name) <= Members(order)
    ensures Sorted(g, order + [name])
  {
    var next := order + [name];
    forall i | 0 <= i < |next| ensures g.Deps(next[i]) <= Members(next[..i]) {
      assert next[..i] == order[..i];
      if i == |order| {
        assert order[..i] == order;
      }
    }
  }

  class Search {
    const g: Graph
    var marks: map<Name, Mark>
    var order: seq<Name>

    constructor (g: Graph)
      ensures this.g == g && marks == map[] && order == []
    {
      this.g := g;
      marks, order := map[], [];
    }

    ghost predicate Valid(path: seq<Name>)
      reads this
    {
      Searching(g, marks, order, path)
    }

    /** One recursive visit. Dependencies are taken in any order, the sorted one included. */
    method Visit(name: Name, ghost path: seq<Name>) returns (ok: bool)
      requires Valid(path) && name in g.selected
      requires path != [] ==> name in g.Deps(path[|path| - 1])
      modifies this
      ensures marks.Keys >= old(marks.Keys)
      ensures ok ==> Valid(path) && name in order && old(Members(order)) <= Members(order)
      ensures !ok ==> Cyclic(g)
      decreases |g.selected - marks.Keys|
    {
      if name in marks && marks[name] == Visiting {
        BackEdge(g, path, name);
        return false;
      }
      if name in marks {
        return true;
      }
      Enter(g, marks, order, path, name);
      marks := marks[name := Visiting];
      var deps := g.Deps(name);
      while deps != {}
        invariant deps <= g.Deps(name) && name in marks && marks.Keys >= old(marks.Keys)
        invariant Valid(path + [name])
        invariant g.Deps(name) - deps <= Members(order) && old(Members(order)) <= Members(order)
        decreases |deps|
      {
        var dep :| dep in deps;
        Shrinks(g.selected, old(marks.Keys), marks.Keys, name);
        ok := Visit(dep, path + [name]);
        if !ok {
          return false;
        }
        deps := deps - {dep};
      }
      Leave(g, marks, order, path, name);
      marks := marks[name := Done];
      order := order + [name];
      ok := true;
    }

    /** The whole search: it fails exactly on a dependency cycle, and otherwise lists each
        selected service once, after all its selected dependencies. */
    method Run() returns (ok: bool)
      requires marks == map[] && order == []
      modifies this
      ensures ok <==> !Cyclic(g)
      ensures ok ==> Topological(g, order)
    {
      var names := g.selected;
      while names != {}
        invariant names <= g.selected && Valid([])
        invariant g.selected - names <= Members(order)
        decreases |names|
      {
        var name :| name in names;
        ok := Visit(name, []);
        if !ok {
          return;
        }
        names := names - {name};
      }
      assert Members(order) == g.selected;
      TopologicalIsSorted(g, order);
      TopologicalExcludesCycles(g, order);
      ok := true;
    }
  }

  lemma Shrinks(all: set<Name>, before: set<Name>, after: set<Name>, name: Name)
    requires before <= after && name in after && name !in before && name in all
    ensures |all - after| < |all - before|
  {
    SubsetSize(all - after, all - before - {name});
  }

  lemma Enter(g: Graph, marks: map<Name, Mark>, order: seq<Name>, path: seq<Name>, name: Name)
    requires Searching(g, marks, order, path) && name in g.selected && name !in marks
    requires path != [] ==> name in g.Deps(path[|path| - 1])
    ensures Searching(g, marks[name := Visiting], order, path + [name])
  {
    var inner := path + [name];
    assert forall n :: n in inner <==> n == name || n in path;
  }

  lemma Leave(g: Graph, marks: map<Name, Mark>, order: seq<Name>, path: seq<Name>, name: Name)
    requires Searching(g, marks, order, path + [name]) && name in marks && name !in path
    requires g.Deps(name) <= Members(order)
    ensures Searching(g, marks[name := Done], order + [name], path)
  {
    var inner := path + [name];
    assert forall n :: n in inner <==> n == name || n in path;
    assert inner[|path|] == name;
    SortedAppend(g, order, name);
    assert forall n :: n in order + [name] <==> n == name || n in order;
    forall i | 0 <= i < |path| - 1 ensures Depends(g, path[i], path[i + 1]) {
      assert Depends(g, inner[i], inner[i + 1]);
    }
  }

  // ---------------------------------------------------------------- starting and stopping

  /** What this call has left running, and which of those it has seen ready. */
  datatype Observed = Observed(running: set<Name>, ready: set<Name>)

  /** No service runs unless every selected dependency of it runs and was seen ready. */
  ghost predicate DependenciesReady(g: Graph, o: Observed) {
    o.ready <= o.running && forall n, on :: n in o.running && Depends(g, n, on) ==> on in o.ready
  }

  ghost predicate DependencyClosed(g: Graph, running: set<Name>) {
    forall n, on :: n in running && Depends(g, n, on) ==> on in running
  }

  datatype Poll = Ready | NotYet | Broken | InspectError | Cancelled

  /** What the runtime answers for one container while it is being started. */
  datatype StartScript =
    | RefusedBefore                              // cancelled, changed identity, or not stopped
    | StartError(started: bool)                  // the start call failed, with or without effect
    | Started(polls: seq<Poll>)                  // readiness answers; running out of them is the deadline

  /** What the runtime answers for one container while it is being stopped. */
  datatype StopScript =
    | KeptRunning                                // cancelled or changed identity before the call
    | StopError(stopped: bool)                   // the stop call or the check after it failed
    | Stopped

  function Prefix(order: seq<Name>, n: nat): set<Name>
    requires n <= |order|
  {
    Members(order[..n])
  }

  lemma PrefixStep(g: Graph, order: seq<Name>, n: nat)
    requires Sorted(g, order) && n < |order|
    ensures Prefix(order, n + 1) == Prefix(order, n) + {order[n]}
    ensures order[n] !in Prefix(order, n)
    ensures g.Deps(order[n]) <= Prefix(order, n)
  {
    assert order[..n + 1] == order[..n] + [order[n]];
  }

  lemma {:induction false} PrefixReady(g: Graph, order: seq<Name>, n: nat)
    requires Sorted(g, order) && n <= |order|
    ensures DependenciesReady(g, Observed(Prefix(order, n), Prefix(order, n)))
  {
    if n != 0 {
      PrefixReady(g, order, n - 1);
      PrefixStep(g, order, n - 1);
    }
  }

  lemma StartedUnready(g: Graph, order: seq<Name>, n: nat)
    requires Sorted(g, order) && n < |order|
    ensures DependenciesReady(g, Observed(Prefix(order, n) + {order[n]}, Prefix(order, n)))
  {
    PrefixReady(g, order, n);
    PrefixStep(g, order, n);
  }

  /** The container was seen ready, and until then nothing worse than not yet ready. */
  predicate ComesUp(polls: seq<Poll>) {
    exists k :: 0 <= k < |polls| && polls[k] == Ready && forall i :: 0 <= i < k ==> polls[i] == NotYet
  }

  /** Polls one started container until it is ready. */
  method AwaitReady(polls: seq<Poll>) returns (ready: bool)
    ensures ready <==> ComesUp(polls)
  {
    for i := 0 to |polls|
      invariant forall k :: 0 <= k < i ==> polls[k] == NotYet
    {
      if polls[i] == Ready {
        return true;
      }
      if polls[i] != NotYet {
        return false;
      }
    }
    ready := false;
  }

  /** The first container that does not come up. */
  predicate Stuck(scripts: seq<StartScript>, i: nat) {
    && i < |scripts| && !(scripts[i].Started? && ComesUp(scripts[i].polls))
    && forall k :: 0 <= k < i ==> scripts[k].Started? && ComesUp(scripts[k].polls)
  }

  /** All before it run and were seen ready; it runs itself if the call to start it took effect. */
  function LeftRunning(containers: seq<Name>, scripts: seq<StartScript>, i: nat): Observed
    requires i < |containers| == |scripts|
  {
    var up := Members(containers[..i]);
    Observed(if scripts[i].Started? || (scripts[i].StartError? && scripts[i].started) then up + {containers[i]} else up, up)
  }

  /** Starts the containers in dependency order once `admitted` by the preflight; `history` holds what runs after every runtime call.
      At every point, a failure in the middle included, dependencies were ready before dependents ran. */
  method StartOnDemand(g: Graph, containers: seq<Name>, admitted: bool, scripts: seq<StartScript>)
    returns (ok: bool, history: seq<Observed>)
    requires Topological(g, containers) && |scripts| == |containers|
    ensures forall i :: 0 <= i < |history| ==> DependenciesReady(g, history[i])
    ensures history != []
    ensures ok ==> history[|history| - 1] == Observed(g.selected, g.selected)
    ensures ok <==> admitted && forall i :: 0 <= i < |scripts| ==> scripts[i].Started? && ComesUp(scripts[i].polls)
    ensures !admitted ==> history == [Observed({}, {})]
    ensures admitted && !ok ==> exists i :: 0 <= i < |scripts| && Stuck(scripts, i) && history[|history| - 1] == LeftRunning(containers, scripts, i)
  {
    TopologicalIsSorted(g, containers);
    history := [Observed({}, {})];
    if !admitted {
      return false, history;
    }
    for i := 0 to |containers|
      invariant history != []
      invariant history[|history| - 1] == Observed(Prefix(containers, i), Prefix(containers, i))
      invariant forall k :: 0 <= k < i ==> scripts[k].Started? && ComesUp(scripts[k].polls)
      invariant forall k :: 0 <= k < |history| ==> DependenciesReady(g, history[k])
    {
      var name := containers[i];
      var now := history[|history| - 1];
      StartedUnready(g, containers, i);
      PrefixReady(g, containers, i + 1);
      PrefixStep(g, containers, i);
      match scripts[i]
      case RefusedBefore =>
        assert Stuck(scripts, i);
        return false, history;
      case StartError(started) =>
        if started {
          history := history + [now.(running := now.running + {name})];
        }
        assert Stuck(scripts, i);
        return false, history;
      case Started(polls) =>
        history := history + [now.(running := now.running + {name})];
        var ready := AwaitReady(polls);
        if !ready {
          assert Stuck(scripts, i);
          return false, history;
        }
        history := history + [Observed(now.running + {name}, now.ready + {name})];
    }
    assert containers[..|containers|] == containers;
    ok := true;
  }

  /** The last container that does not stop, the first that is tried. */
  predicate Resists(scripts: seq<StopScript>, i: nat) {
    i < |scripts| && scripts[i] != Stopped && forall k :: i < k < |scripts| ==> scripts[k] == Stopped
  }

  /** All before it still run, and so does it unless the failed call stopped it. */
  function LeftUp(containers: seq<Name>, scripts: seq<StopScript>, i: nat): set<Name>
    requires i < |containers| == |scripts|
  {
    Members(if scripts[i].StopError? && scripts[i].stopped then containers[..i] else containers[..i + 1])
  }

  /** Stops the containers in reverse dependency order; what still runs is always closed
      under dependencies, so no service ever loses one it needs. */
  method StopOnDemand(g: Graph, containers: seq<Name>, admitted: bool, scripts: seq<StopScript>)
    returns (ok: bool, history: seq<set<Name>>)
    requires Topological(g, containers) && |scripts| == |containers|
    ensures forall i :: 0 <= i < |history| ==> DependencyClosed(g, history[i])
    ensures history != [] && history[0] == g.selected
    ensures ok ==> history[|history| - 1] == {}
    ensures ok <==> admitted && forall i :: 0 <= i < |scripts| ==> scripts[i] == Stopped
    ensures !admitted ==> history == [g.selected]
    ensures admitted && !ok ==> exists i :: 0 <= i < |scripts| && Resists(scripts, i) && history[|history| - 1] == LeftUp(containers, scripts, i)
  {
    TopologicalIsSorted(g, containers);
    assert containers[..|containers|] == containers;
    history := [Members(containers)];
    PrefixReady(g, containers, |containers|);
    if !admitted {
      return false, history;
    }
    for i := |containers| downto 0
      invariant history != [] && history[0] == g.selected
      invariant history[|history| - 1] == Prefix(containers, i)
      invariant forall k :: i <= k < |scripts| ==> scripts[k] == Stopped
      invariant forall k :: 0 <= k < |history| ==> DependencyClosed(g, history[k])
    {
      var name := containers[i];
      var now := history[|history| - 1];
      PrefixStep(g, containers, i);
      PrefixReady(g, containers, i);
      assert now - {name} == Prefix(containers, i);
      match scripts[i]
      case KeptRunning =>
        assert Resists(scripts, i);
        return false, history;
      case StopError(stopped) =>
        if stopped {
          history := history + [now - {name}];
        }
        assert Resists(scripts, i);
        return false, history;
      case Stopped =>
        history := history + [now - {name}];
    }
    ok := true;
  }
}
