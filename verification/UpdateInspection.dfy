/** Inspection of a project's containers, and the list of changes that is prepared from it. */
module UpdateInspection {
  import opened Wrappers

  datatype Health = Healthy | Starting | NoHealth

  datatype Container = Container(id: string, service: string, image: string, health: Health, restarts: int, startedAt: int)

  /** A listed container: rejected by the checks on it alone, or read. */
  datatype Row = Rejected | Read(container: Container)

  /** The scale of every service. */
  type Project = map<string, nat>

  datatype Change = Change(service: string, image: string)

  // ---------------------------------------------------------------- what an accepted inspection shows

  /** The containers read before the first rejection. */
  function Visible(listing: seq<Row>): seq<Container> {
    if listing == [] || listing[0].Rejected? then [] else [listing[0].container] + Visible(listing[1..])
  }

  function Count(rows: seq<Container>, service: string): nat {
    if rows == [] then 0
    else Count(rows[..|rows| - 1], service) + if rows[|rows| - 1].service == service then 1 else 0
  }

  /** Every container belongs to the project, and every service has as many as its scale. */
  predicate Counted(project: Project, rows: seq<Container>) {
    && (forall i :: 0 <= i < |rows| ==> rows[i].service in project)
    && forall s :: s in project ==> Count(rows, s) == project[s]
  }

  /** Replicas of a service run one image. */
  predicate Uniform(rows: seq<Container>) {
    forall i, j :: 0 <= i < j < |rows| && rows[i].service == rows[j].service ==> rows[i].image == rows[j].image
  }

  predicate Accepted(project: Project, listing: seq<Row>) {
    && (forall i :: 0 <= i < |listing| ==> listing[i].Read?)
    && Counted(project, Visible(listing)) && Uniform(Visible(listing)) && listing != []
  }

  lemma {:induction false} VisibleRows(listing: seq<Row>, rows: seq<Container>)
    requires |rows| == |listing| && forall i :: 0 <= i < |rows| ==> listing[i] == Read(rows[i])
    ensures Visible(listing) == rows
    decreases |rows|
  {
    if rows != [] {
      VisibleRows(listing[1..], rows[1..]);
    }
  }

  lemma {:induction false} SomeIsCounted(rows: seq<Container>, service: string)
    ensures Count(rows, service) > 0 <==> exists i :: 0 <= i < |rows| && rows[i].service == service
  {
    if rows != [] {
      var n := |rows| - 1;
      SomeIsCounted(rows[..n], service);
      if i :| 0 <= i < n && rows[i].service == service {
        assert rows[..n][i].service == service;
      }
    }
  }

  /** What the row loop has collected: a count and an image for every service met so far. */
  ghost predicate Tallied(rows: seq<Container>, counts: map<string, nat>, images: map<string, string>) {
    && (forall s :: Count(rows, s) == if s in counts then counts[s] else 0)
    && (forall i :: 0 <= i < |rows| ==> rows[i].service in images && images[rows[i].service] == rows[i].image)
    && (forall s :: s in images ==> exists i :: 0 <= i < |rows| && rows[i].service == s)
  }

  lemma TallyOne(rows: seq<Container>, counts: map<string, nat>, images: map<string, string>, row: Container)
    requires Tallied(rows, counts, images) && (row.service in images ==> images[row.service] == row.image)
    ensures Tallied(rows + [row], counts[row.service := (if row.service in counts then counts[row.service] else 0) + 1],
                    images[row.service := row.image])
  {
    var more, after := rows + [row], images[row.service := row.image];
    assert more[..|rows|] == rows && more[|rows|] == row;
    forall s | s in after ensures exists i :: 0 <= i < |more| && more[i].service == s {
      if s == row.service {
        assert more[|rows|].service == s;
      } else {
        var i :| 0 <= i < |rows| && rows[i].service == s;
        assert more[i].service == s;
      }
    }
  }

  lemma TalliedIsUniform(rows: seq<Container>, counts: map<string, nat>, images: map<string, string>)
    requires Tallied(rows, counts, images)
    ensures Uniform(rows)
  {
  }

  /** Reads the listing row by row and compares the counts with the scales. A failed inspection shows the
      rows read before it failed. */
  method Inspect(project: Project, listing: seq<Row>) returns (ok: bool, rows: seq<Container>)
    ensures ok <==> Accepted(project, listing)
    ensures ok ==> rows == Visible(listing)
    ensures |rows| <= |listing| && forall i :: 0 <= i < |rows| ==> listing[i] == Read(rows[i])
  {
    ok, rows := false, [];
    var counts: map<string, nat>, images: map<string, string> := map[], map[];
    for i := 0 to |listing|
      invariant |rows| == i && (forall k :: 0 <= k < i ==> listing[k] == Read(rows[k]) && rows[k].service in project)
      invariant Tallied(rows, counts, images)
    {
      if listing[i].Rejected? {
        return;
      }
      var row := listing[i].container;
      if row.service !in project || (row.service in images && images[row.service] != row.image) {
        RejectsRow(project, listing, rows, i);
        return;
      }
      TallyOne(rows, counts, images, row);
      counts := counts[row.service := (if row.service in counts then counts[row.service] else 0) + 1];
      images := images[row.service := row.image];
      rows := rows + [row];
    }
    VisibleRows(listing, rows);
    TalliedIsUniform(rows, counts, images);
    ok := CountsMatch(project, rows, counts, images) && |rows| > 0;
  }

  /** The comparison after the loop. */
  function CountsMatch(project: Project, rows: seq<Container>, counts: map<string, nat>, images: map<string, string>): (r: bool)
    requires Tallied(rows, counts, images) && forall k :: 0 <= k < |rows| ==> rows[k].service in project
    ensures r <==> Counted(project, rows)
  {
    forall s :: s in project ==> (if s in counts then counts[s] else 0) == project[s]
  }

  /** A row of an unknown service, or with another image than its replicas, cannot be accepted. */
  lemma RejectsRow(project: Project, listing: seq<Row>, rows: seq<Container>, i: nat)
    requires i < |listing| && |rows| == i && (forall k :: 0 <= k < i ==> listing[k] == Read(rows[k])) && listing[i].Read?
    requires listing[i].container.service !in project
          || exists k :: 0 <= k < i && rows[k].service == listing[i].container.service && rows[k].image != listing[i].container.image
    ensures !Accepted(project, listing)
  {
    if forall k :: 0 <= k < |listing| ==> listing[k].Read? {
      var all := seq(|listing|, k requires 0 <= k < |listing| => listing[k].container);
      VisibleRows(listing, all);
      assert all[i] == listing[i].container;
      if k :| 0 <= k < i && rows[k].service == listing[i].container.service && rows[k].image != listing[i].container.image {
        assert all[k] == rows[k];
      }
    }
  }

  // ---------------------------------------------------------------- the prepared changes

  /** What the registry says of a service's image. */
  datatype Lookup = Unavailable | Pinned | Image(id: string)

  /** The first container of a service. */
  function Running(rows: seq<Container>, service: string): Option<Container> {
    if rows == [] then None
    else if rows[0].service == service then Some(rows[0])
    else Running(rows[1..], service)
  }

  /** It is found if there is one, and no container before it is of the service. */
  lemma {:induction false} RunningIsTheFirst(rows: seq<Container>, service: string)
    ensures Running(rows, service).Some? <==> exists i :: 0 <= i < |rows| && rows[i].service == service
    ensures Running(rows, service).Some? ==>
              exists i :: 0 <= i < |rows| && rows[i] == Running(rows, service).value && rows[i].service == service
                          && forall j :: 0 <= j < i ==> rows[j].service != service
  {
    if rows != [] && rows[0].service != service {
      var rest := rows[1..];
      RunningIsTheFirst(rest, service);
      if Running(rows, service).Some? {
        var i :| 0 <= i < |rest| && rest[i] == Running(rows, service).value && rest[i].service == service
                 && forall j :: 0 <= j < i ==> rest[j].service != service;
        assert rows[i + 1] == rest[i];
        forall j | 0 <= j < i + 1 ensures rows[j].service != service {
          if j > 0 { assert rows[j] == rest[j - 1]; }
        }
      }
      if i :| 0 <= i < |rows| && rows[i].service == service {
        assert rest[i - 1] == rows[i];
      }
    }
  }

  /** The service is looked up: it is not excluded and runs. */
  predicate Considered(service: string, excluded: set<string>, rows: seq<Container>) {
    service !in excluded && Running(rows, service).Some?
  }

  /** A considered service whose looked-up image is not the one it runs. */
  predicate Outdated(service: string, excluded: set<string>, rows: seq<Container>, lookup: string -> Lookup) {
    && Considered(service, excluded, rows)
    && lookup(service).Image? && lookup(service).id != Running(rows, service).value.image
  }

  /** The first container of the service. */
  predicate FirstOf(rows: seq<Container>, service: string, i: nat) {
    i < |rows| && rows[i].service == service && forall j :: 0 <= j < i ==> rows[j].service != service
  }

  /** A service that is not excluded is considered if it has a container, and outdated if the image looked up is
      not that of its first one. */
  lemma OutdatedExactly(service: string, excluded: set<string>, rows: seq<Container>, lookup: string -> Lookup)
    ensures Considered(service, excluded, rows) <==> service !in excluded && exists i: nat :: FirstOf(rows, service, i)
    ensures Outdated(service, excluded, rows, lookup) <==>
            service !in excluded && exists i: nat :: FirstOf(rows, service, i) && lookup(service).Image? && lookup(service).id != rows[i].image
  {
    RunningIsTheFirst(rows, service);
    if Running(rows, service).Some? {
      var i :| 0 <= i < |rows| && rows[i] == Running(rows, service).value && rows[i].service == service
               && forall j :: 0 <= j < i ==> rows[j].service != service;
      assert FirstOf(rows, service, i);
      forall k: nat | FirstOf(rows, service, k) ensures k == i {}
    }
  }

  predicate DistinctServices(changes: seq<Change>) {
    forall i, j :: 0 <= i < j < |changes| ==> changes[i].service != changes[j].service
  }

  /** Every change is of a service with a container. */
  predicate Grounded(changes: seq<Change>, rows: seq<Container>) {
    forall i :: 0 <= i < |changes| ==> exists r :: 0 <= r < |rows| && rows[r].service == changes[i].service
  }

  /** Goes through the service names once. The list names exactly the outdated services, each once, with
      the image looked up; a failed lookup of a considered service yields no list. */
  method PrepareUpdate(names: seq<string>, excluded: set<string>, rows: seq<Container>, lookup: string -> Lookup)
    returns (prepared: Option<seq<Change>>)
    requires forall i, j :: 0 <= i < j < |names| ==> names[i] != names[j]
    ensures prepared.None? <==> exists i :: 0 <= i < |names| && Considered(names[i], excluded, rows) && lookup(names[i]).Unavailable?
    ensures prepared.Some? ==> DistinctServices(prepared.value) && Grounded(prepared.value, rows)
    ensures prepared.Some? ==> forall c :: c in prepared.value <==>
              c.service in names && Outdated(c.service, excluded, rows, lookup) && c.image == lookup(c.service).id
  {
    var changes: seq<Change> := [];
    for n := 0 to |names|
      invariant forall i :: 0 <= i < n ==> !(Considered(names[i], excluded, rows) && lookup(names[i]).Unavailable?)
      invariant DistinctServices(changes) && Grounded(changes, rows)
      invariant forall c :: c in changes <==>
        c.service in names[..n] && Outdated(c.service, excluded, rows, lookup) && c.image == lookup(c.service).id
    {
      var name := names[n];
      assert names[..n + 1] == names[..n] + [name];
      var running := Running(rows, name);
      if name !in excluded && running.Some? {
        var found := lookup(name);
        if found.Unavailable? {
          return None;
        }
        if found.Image? && found.id != running.value.image {
          RunningIsTheFirst(rows, name);
          NotYet(names, n, changes);
          changes := changes + [Change(name, found.id)];
        }
      }
    }
    assert names[..|names|] == names;
    prepared := Some(changes);
  }

  lemma NotYet(names: seq<string>, n: nat, changes: seq<Change>)
    requires n < |names| && forall i, j :: 0 <= i < j < |names| ==> names[i] != names[j]
    requires forall c :: c in changes ==> c.service in names[..n]
    ensures forall i :: 0 <= i < |changes| ==> changes[i].service != names[n]
  {
    forall i | 0 <= i < |changes| ensures changes[i].service != names[n] {
      assert changes[i] in changes;
    }
  }
}
