/** The monitoring source slots: which goroutine may collect from or close a source, and when. */
module MonitoringSlots {
  import opened Wrappers

  const MAX_SOURCES: nat := 512

  /** A slot with the goroutines that work on it: in `Collect`, waiting for the lock after it, sent to close
      the source, in `Close`, and waiting for the lock after that. `closes` counts the calls of `Close`. */
  datatype Slot = Slot(id: string, busy: bool, retired: bool,
                       collecting: nat, settling: nat, due: nat, closing: nat, removing: nat, closes: nat)

  /** `slots` keeps every slot ever made, `table` is the service's map of sources, and `discards` counts the
      sources that a discovery ending after the stop closed directly. */
  datatype Service = Service(slots: map<nat, Slot>, table: map<string, nat>, discovering: bool, stopped: bool, omitted: nat,
                             discards: multiset<string>)

  const START: Service := Service(map[], map[], false, false, 0, multiset{})

  predicate Live(s: Service, n: nat) {
    n in s.slots && s.slots[n].id in s.table && s.table[s.slots[n].id] == n
  }

  function Set(s: Service, n: nat, x: Slot): Service {
    s.(slots := s.slots[n := x])
  }

  function Retire(x: Slot): Slot {
    if x.retired then x else x.(retired := true, due := if x.busy then x.due else x.due + 1)
  }

  function RetireOthers(s: Service, keep: set<string>): Service {
    s.(slots := map n | n in s.slots :: if Live(s, n) && s.slots[n].id !in keep then Retire(s.slots[n]) else s.slots[n])
  }

  /** The sources that may have a slot, and how many were over the bound; a nil or invalid source is None. */
  function Keep(sources: seq<Option<string>>): (set<string>, nat) {
    if sources == [] then ({}, 0)
    else
      var (keep, omitted) := Keep(sources[..|sources| - 1]);
      var last := sources[|sources| - 1];
      if last.None? then (keep, omitted)
      else if |keep| >= MAX_SOURCES then (keep, omitted + 1)
      else (keep + {last.value}, omitted)
  }

  /** Slots are numbered as they are made, so a new number is one that was never used. */
  function Add(s: Service, id: string, n: nat): Service {
    if id in s.table || n in s.slots then s
    else if |s.table| >= MAX_SOURCES then s.(omitted := s.omitted + 1)
    else s.(slots := s.slots[n := Slot(id, false, false, 0, 0, 0, 0, 0, 0)], table := s.table[id := n])
  }

  /** New sources get slots in some order, each with a number. */
  function AddAll(s: Service, order: seq<(string, nat)>): Service {
    if order == [] then s
    else Add(AddAll(s, order[..|order| - 1]), order[|order| - 1].0, order[|order| - 1].1)
  }

  /** `order` goes once through the kept sources and uses new numbers. */
  ghost predicate Enumerates(s: Service, order: seq<(string, nat)>, keep: set<string>) {
    && (forall id :: id in keep <==> exists i :: 0 <= i < |order| && order[i].0 == id)
    && (forall i :: 0 <= i < |order| ==> order[i].1 !in s.slots)
    && (forall i, j :: 0 <= i < j < |order| ==> order[i].0 != order[j].0 && order[i].1 != order[j].1)
  }

  function Replace(s: Service, sources: seq<Option<string>>, order: seq<(string, nat)>): Service {
    var (keep, omitted) := Keep(sources);
    AddAll(RetireOthers(s, keep).(omitted := omitted), order)
  }

  function Begin(x: Slot): Slot {
    if x.busy || x.retired then x else x.(busy := true, collecting := x.collecting + 1)
  }

  /** The sources without a slot. */
  function Strays(table: map<string, nat>, sources: seq<Option<string>>): multiset<string> {
    if sources == [] then multiset{}
    else
      var last := sources[|sources| - 1];
      Strays(table, sources[..|sources| - 1]) + if last.Some? && last.value !in table then multiset{last.value} else multiset{}
  }

  /** Every idle slot starts a collection, but for the sources still to be looked at. */
  function Schedule(s: Service, rest: set<string>): Service {
    s.(slots := map n | n in s.slots :: if Live(s, n) && s.slots[n].id !in rest then Begin(s.slots[n]) else s.slots[n])
  }

  /** After `Collect`, under the lock: the goroutine goes on to close a slot that was retired meanwhile. */
  function Settle(s: Service, n: nat): Service
    requires n in s.slots && s.slots[n].settling > 0
  {
    var x := s.slots[n].(settling := s.slots[n].settling - 1, busy := false);
    Set(s, n, if x.retired || s.stopped then x.(due := x.due + 1) else x)
  }

  function Remove(s: Service, n: nat): Service
    requires n in s.slots && s.slots[n].removing > 0
  {
    var t := Set(s, n, s.slots[n].(removing := s.slots[n].removing - 1));
    if Live(s, n) then t.(table := s.table - {s.slots[n].id}) else t
  }

  datatype Step =
    | DoSchedule(cancelled: bool)
    | CollectReturns(n: nat)
    | DoSettle(n: nat)
    | CloseStarts(n: nat)
    | CloseReturns(n: nat)
    | DoRemove(n: nat)
    | Discover
    | Discovered(sources: seq<Option<string>>, failed: bool, order: seq<(string, nat)>)
    | Stop

  function Apply(s: Service, step: Step): Service {
    match step
    case DoSchedule(cancelled) => if s.stopped || cancelled then s else Schedule(s, {})
    case CollectReturns(n) =>
      if n in s.slots && s.slots[n].collecting > 0
      then Set(s, n, s.slots[n].(collecting := s.slots[n].collecting - 1, settling := s.slots[n].settling + 1)) else s
    case DoSettle(n) => if n in s.slots && s.slots[n].settling > 0 then Settle(s, n) else s
    case CloseStarts(n) =>
      if n in s.slots && s.slots[n].due > 0
      then Set(s, n, s.slots[n].(due := s.slots[n].due - 1, closing := s.slots[n].closing + 1, closes := s.slots[n].closes + 1)) else s
    case CloseReturns(n) =>
      if n in s.slots && s.slots[n].closing > 0
      then Set(s, n, s.slots[n].(closing := s.slots[n].closing - 1, removing := s.slots[n].removing + 1)) else s
    case DoRemove(n) => if n in s.slots && s.slots[n].removing > 0 then Remove(s, n) else s
    case Discover => if s.stopped then s else s.(discovering := true)
    case Discovered(sources, failed, order) =>
      if !s.discovering then s
      else
        var t := s.(discovering := false);
        if s.stopped then t.(discards := s.discards + Strays(s.table, sources))
        else if failed then t
        else Replace(t, sources, order)
    case Stop => RetireOthers(s, {}).(stopped := true)
  }

  /** The constructor takes the configured sources; then any interleaving of goroutines. */
  function Run(sources: seq<Option<string>>, order: seq<(string, nat)>, steps: seq<Step>): Service {
    if steps == [] then Replace(START, sources, order)
    else Apply(Run(sources, order, steps[..|steps| - 1]), steps[|steps| - 1])
  }

  // ---------------------------------------------------------------- invariants

  /** One collector while busy; one closer, or a finished one, from the moment the slot is retired and idle. */
  predicate SlotOk(s: Service, n: nat) {
    n in s.slots ==>
      var x := s.slots[n];
      var gone := if Live(s, n) then 0 else 1;
      && x.collecting + x.settling == (if x.busy then 1 else 0)
      && x.due + x.closing + x.removing + gone == (if x.retired && !x.busy then 1 else 0)
      && x.closes == x.closing + x.removing + gone
      && (s.stopped ==> x.retired)
  }

  predicate EntryOk(s: Service, id: string) {
    id in s.table ==> s.table[id] in s.slots && s.slots[s.table[id]].id == id
  }

  ghost predicate Ok(s: Service) {
    && (forall n :: n in s.slots ==> SlotOk(s, n)) && (forall id :: id in s.table ==> EntryOk(s, id))
    && |s.table| <= MAX_SOURCES
  }

  lemma RetireKeeps(s: Service, keep: set<string>)
    requires Ok(s)
    ensures Ok(RetireOthers(s, keep))
    ensures keep == {} ==> Ok(RetireOthers(s, keep).(stopped := true))
  {
    var t := RetireOthers(s, keep);
    forall n | n in t.slots ensures SlotOk(t, n) && (keep == {} ==> SlotOk(t.(stopped := true), n)) {
      assert SlotOk(s, n) && (Live(t, n) <==> Live(s, n));
    }
    forall id | id in t.table ensures EntryOk(t, id) { assert EntryOk(s, id); }
  }

  lemma AddKeeps(s: Service, id: string, n: nat)
    requires Ok(s) && !s.stopped
    ensures Ok(Add(s, id, n)) && !Add(s, id, n).stopped
  {
    var t := Add(s, id, n);
    forall m | m in t.slots ensures SlotOk(t, m) {
      if m in s.slots { assert SlotOk(s, m) && (m != n ==> (Live(t, m) <==> Live(s, m))); }
    }
    forall k | k in t.table ensures EntryOk(t, k) {
      if k in s.table { assert EntryOk(s, k); }
    }
  }

  lemma {:induction false} AddAllKeeps(s: Service, order: seq<(string, nat)>)
    requires Ok(s) && !s.stopped
    ensures Ok(AddAll(s, order)) && !AddAll(s, order).stopped
    decreases |order|
  {
    if order != [] {
      var n := |order| - 1;
      AddAllKeeps(s, order[..n]);
      AddKeeps(AddAll(s, order[..n]), order[n].0, order[n].1);
    }
  }

  lemma SameSlotsKeep(s: Service, t: Service)
    requires Ok(s) && t.slots == s.slots && t.table == s.table && t.stopped == s.stopped
    ensures Ok(t)
  {
    forall n | n in t.slots ensures SlotOk(t, n) { assert SlotOk(s, n); }
    forall id | id in t.table ensures EntryOk(t, id) { assert EntryOk(s, id); }
  }

  lemma ReplaceKeeps(s: Service, sources: seq<Option<string>>, order: seq<(string, nat)>)
    requires Ok(s) && !s.stopped
    ensures Ok(Replace(s, sources, order))
  {
    var (keep, omitted) := Keep(sources);
    RetireKeeps(s, keep);
    var t := RetireOthers(s, keep);
    SameSlotsKeep(t, t.(omitted := omitted));
    AddAllKeeps(t.(omitted := omitted), order);
  }

  lemma OneSlotKeeps(s: Service, n: nat, x: Slot)
    requires Ok(s) && n in s.slots && x.id == s.slots[n].id && SlotOk(Set(s, n, x), n)
    ensures Ok(Set(s, n, x))
  {
    var t := Set(s, n, x);
    forall m | m in t.slots ensures SlotOk(t, m) {
      assert SlotOk(s, m) && (Live(t, m) <==> Live(s, m));
    }
    forall id | id in t.table ensures EntryOk(t, id) { assert EntryOk(s, id); }
  }

  lemma RemoveKeeps(s: Service, n: nat)
    requires Ok(s) && n in s.slots && s.slots[n].removing > 0
    ensures Ok(Remove(s, n))
  {
    var t := Remove(s, n);
    assert SlotOk(s, n);
    assert Live(s, n);
    forall m | m in t.slots ensures SlotOk(t, m) {
      assert SlotOk(s, m) && (m != n ==> (Live(t, m) <==> Live(s, m)));
    }
    forall id | id in t.table ensures EntryOk(t, id) { assert EntryOk(s, id); }
    assert t.table.Keys <= s.table.Keys;
    assert |t.table| <= |s.table| by { SmallerTable(s.table, s.slots[n].id); }
  }

  lemma SmallerTable(table: map<string, nat>, id: string)
    requires id in table
    ensures |table - {id}| == |table| - 1
  {
    assert (table - {id}).Keys == table.Keys - {id};
    assert |(table - {id}).Keys| == |table.Keys| - 1;
  }

  lemma ScheduleKeeps(s: Service)
    requires Ok(s)
    ensures Ok(Schedule(s, {}))
  {
    var t := Schedule(s, {});
    forall n | n in t.slots ensures SlotOk(t, n) {
      assert SlotOk(s, n) && (Live(t, n) <==> Live(s, n));
    }
    forall id | id in t.table ensures EntryOk(t, id) { assert EntryOk(s, id); }
  }

  /** A goroutine of one slot that does not leave the table takes a step. */
  lemma SlotStepKeeps(s: Service, step: Step)
    requires Ok(s) && (step.CollectReturns? || step.DoSettle? || step.CloseStarts? || step.CloseReturns?)
    ensures Ok(Apply(s, step))
  {
    var t, n := Apply(s, step), step.n;
    if n in s.slots {
      assert SlotOk(s, n);
      SlotStepOk(s, step);
      OneSlotKeeps(s, n, t.slots[n]);
      assert s.slots[n := s.slots[n]] == s.slots;
      assert t == Set(s, n, t.slots[n]);
    }
  }

  lemma SlotStepOk(s: Service, step: Step)
    requires step.CollectReturns? || step.DoSettle? || step.CloseStarts? || step.CloseReturns?
    requires step.n in s.slots && SlotOk(s, step.n)
    ensures var t := Apply(s, step); step.n in t.slots && t.slots[step.n].id == s.slots[step.n].id
    ensures SlotOk(Set(s, step.n, Apply(s, step).slots[step.n]), step.n)
  {
    if step.CollectReturns? || step.DoSettle? {
      CollectorStepOk(s, step);
    }
  }

  lemma CollectorStepOk(s: Service, step: Step)
    requires step.CollectReturns? || step.DoSettle?
    requires step.n in s.slots && SlotOk(s, step.n)
    ensures var t := Apply(s, step); step.n in t.slots && t.slots[step.n].id == s.slots[step.n].id
    ensures SlotOk(Set(s, step.n, Apply(s, step).slots[step.n]), step.n)
  {
  }

  lemma StepKeeps(s: Service, step: Step)
    requires Ok(s)
    ensures Ok(Apply(s, step))
  {
    match step
    case DoSchedule(_) => ScheduleKeeps(s);
    case DoRemove(n) => if n in s.slots && s.slots[n].removing > 0 { RemoveKeeps(s, n); }
    case Discover => SameSlotsKeep(s, Apply(s, step));
    case Discovered(sources, failed, order) => DiscoveredKeeps(s, sources, failed, order);
    case Stop => RetireKeeps(s, {});
    case _ => SlotStepKeeps(s, step);
  }

  lemma DiscoveredKeeps(s: Service, sources: seq<Option<string>>, failed: bool, order: seq<(string, nat)>)
    requires Ok(s)
    ensures Ok(Apply(s, Discovered(sources, failed, order)))
  {
    SameSlotsKeep(s, s.(discovering := false));
    if s.discovering && s.stopped {
      SameSlotsKeep(s, Apply(s, Discovered(sources, failed, order)));
    } else if s.discovering && !failed {
      ReplaceKeeps(s.(discovering := false), sources, order);
    }
  }

  lemma {:induction false} EveryRunIsOk(sources: seq<Option<string>>, order: seq<(string, nat)>, steps: seq<Step>)
    ensures Ok(Run(sources, order, steps))
    decreases |steps|
  {
    if steps == [] {
      ReplaceKeeps(START, sources, order);
    } else {
      EveryRunIsOk(sources, order, steps[..|steps| - 1]);
      StepKeeps(Run(sources, order, steps[..|steps| - 1]), steps[|steps| - 1]);
    }
  }

  // ---------------------------------------------------------------- what the runs guarantee

  /** The wait group is empty: no goroutine is left. */
  ghost predicate Drained(s: Service) {
    && !s.discovering
    && forall n :: n in s.slots ==>
         s.slots[n].collecting + s.slots[n].settling + s.slots[n].due + s.slots[n].closing + s.slots[n].removing == 0
  }

  /** In every interleaving and for every slot: its source is not collected from while the slot closes it, nor
      after; only one goroutine collects and only one closes, only a retired slot closes, and never twice;
      there are never more than 512 slots. */
  lemma NeverCollectsFromAClosedSlot(sources: seq<Option<string>>, order: seq<(string, nat)>, steps: seq<Step>, n: nat)
    ensures |Run(sources, order, steps).table| <= MAX_SOURCES
    ensures n in Run(sources, order, steps).slots ==>
              var x := Run(sources, order, steps).slots[n];
              && x.collecting <= 1 && x.closing <= 1 && x.closes <= 1
              && (x.collecting > 0 ==> x.closes == 0) && (x.closes > 0 ==> x.retired)
  {
    EveryRunIsOk(sources, order, steps);
    if n in Run(sources, order, steps).slots { assert SlotOk(Run(sources, order, steps), n); }
  }

  /** When no goroutine is left, every retired slot has been closed exactly once and left the table; after a
      stop that is every slot, so the table is empty. */
  lemma DrainedMeansClosed(sources: seq<Option<string>>, order: seq<(string, nat)>, steps: seq<Step>)
    requires Drained(Run(sources, order, steps))
    ensures var s := Run(sources, order, steps);
            && (forall n :: n in s.slots && s.slots[n].retired ==> s.slots[n].closes == 1 && !Live(s, n))
            && (s.stopped ==> s.table == map[] && forall n :: n in s.slots ==> s.slots[n].closes == 1)
  {
    EveryRunIsOk(sources, order, steps);
    var s := Run(sources, order, steps);
    forall n | n in s.slots && s.slots[n].retired ensures s.slots[n].closes == 1 && !Live(s, n) { assert SlotOk(s, n); }
    forall n | s.stopped && n in s.slots ensures s.slots[n].retired { assert SlotOk(s, n); }
    forall id | id in s.table ensures !s.stopped { assert EntryOk(s, id) && Live(s, s.table[id]); }
    assert s.stopped ==> s.table.Keys == {};
  }

  // ---------------------------------------------------------------- what a discovery achieves

  lemma {:induction false} AddAllStays(s: Service, order: seq<(string, nat)>, id: string, n: nat)
    ensures var t := AddAll(s, order);
            && t.omitted >= s.omitted && |t.table| >= |s.table|
            && (id in s.table ==> id in t.table && t.table[id] == s.table[id])
            && (n in s.slots ==> n in t.slots && t.slots[n] == s.slots[n])
            && (n !in s.slots && (forall i :: 0 <= i < |order| ==> order[i].1 != n) ==> n !in t.slots)
    decreases |order|
  {
    if order != [] {
      var k := |order| - 1;
      AddAllStays(s, order[..k], id, n);
      assert forall i :: 0 <= i < k ==> order[..k][i] == order[i];
    }
  }

  lemma {:induction false} AddAllLeaves(s: Service, order: seq<(string, nat)>)
    ensures var t := AddAll(s, order); t.discovering == s.discovering && t.stopped == s.stopped && t.discards == s.discards
    decreases |order|
  {
    if order != [] {
      AddAllLeaves(s, order[..|order| - 1]);
    }
  }

  lemma {:induction false} AddAllServes(s: Service, order: seq<(string, nat)>, i: nat)
    requires i < |order|
    requires forall j :: 0 <= j < |order| ==> order[j].1 !in s.slots
    requires forall j, k :: 0 <= j < k < |order| ==> order[j].1 != order[k].1
    ensures var t := AddAll(s, order);
            order[i].0 in t.table || (t.omitted > s.omitted && |t.table| >= MAX_SOURCES)
    decreases |order|
  {
    var k := |order| - 1;
    var m := AddAll(s, order[..k]);
    AddAllStays(s, order[..k], order[i].0, order[k].1);
    if i < k {
      AddAllServes(s, order[..k], i);
    }
  }

  /** What is added is an idle slot for one of the listed sources. */
  lemma {:induction false} AddAllIsFresh(s: Service, order: seq<(string, nat)>, id: string)
    requires id !in s.table && id in AddAll(s, order).table
    ensures var t := AddAll(s, order);
            && t.table[id] in t.slots && t.slots[t.table[id]] == Only(id)
            && exists i :: 0 <= i < |order| && order[i].0 == id
    decreases |order|
  {
    if order != [] {
      var k := |order| - 1;
      if id in AddAll(s, order[..k]).table {
        AddAllIsFresh(s, order[..k], id);
        var i :| 0 <= i < k && order[..k][i].0 == id;
        assert order[i].0 == id;
      }
    }
  }

  /** The listed sources that have no slot in a table. */
  function Slotless(table: map<string, nat>, order: seq<(string, nat)>): set<int> {
    set i | 0 <= i < |order| && order[i].0 !in table
  }

  /** Each listed source that got no slot is counted, once. */
  lemma {:induction false} AddAllCounts(s: Service, order: seq<(string, nat)>)
    requires forall i :: 0 <= i < |order| ==> order[i].1 !in s.slots
    requires forall i, j :: 0 <= i < j < |order| ==> order[i].0 != order[j].0 && order[i].1 != order[j].1
    ensures AddAll(s, order).omitted == s.omitted + |Slotless(AddAll(s, order).table, order)|
    decreases |order|
  {
    if order != [] {
      var k := |order| - 1;
      AddAllCounts(s, order[..k]);
      AddAllStays(s, order[..k], order[k].0, order[k].1);
      AddCounts(AddAll(s, order[..k]), order);
    }
  }

  /** One more source, which has got a slot or not. */
  lemma SlotlessStep(table: map<string, nat>, after: map<string, nat>, order: seq<(string, nat)>)
    requires order != [] && forall i :: 0 <= i < |order| - 1 ==> order[i].0 != order[|order| - 1].0
    requires forall id :: id != order[|order| - 1].0 ==> (id in after <==> id in table)
    ensures |Slotless(after, order)| == |Slotless(table, order[..|order| - 1])| + if order[|order| - 1].0 in after then 0 else 1
  {
    var k := |order| - 1;
    var before := Slotless(table, order[..k]);
    forall i | 0 <= i < k ensures i in before <==> i in Slotless(after, order) {
      assert order[..k][i] == order[i];
    }
    assert Slotless(after, order) == if order[k].0 in after then before else before + {k};
  }

  lemma AddCounts(m: Service, order: seq<(string, nat)>)
    requires order != [] && order[|order| - 1].1 !in m.slots
    requires forall i :: 0 <= i < |order| - 1 ==> order[i].0 != order[|order| - 1].0
    ensures var k := |order| - 1;
            var t := Add(m, order[k].0, order[k].1);
            t.omitted - |Slotless(t.table, order)| == m.omitted - |Slotless(m.table, order[..k])|
  {
    var k := |order| - 1;
    SlotlessStep(m.table, Add(m, order[k].0, order[k].1).table, order);
  }

  /** A discovery retires the slot of a source that is gone, leaves the slot of one that stays, and gives a
      new source, and no other, an idle slot unless the table is full, which is then reported. */
  lemma ReplaceServes(s: Service, sources: seq<Option<string>>, order: seq<(string, nat)>, id: string)
    requires Ok(s) && Enumerates(s, order, Keep(sources).0)
    ensures var t, keep := Replace(s, sources, order), Keep(sources).0;
            && (id in keep ==> id in t.table || (t.omitted > 0 && |t.table| >= MAX_SOURCES))
            && (id in s.table ==>
                  && s.table[id] in s.slots && id in t.table && t.table[id] == s.table[id] && t.table[id] in t.slots
                  && var x := s.slots[s.table[id]];
                  t.slots[t.table[id]] ==
                  if id in keep || x.retired then x else x.(retired := true, due := if x.busy then x.due else x.due + 1))
            && (id in t.table && id !in s.table ==> id in keep && t.table[id] in t.slots && t.slots[t.table[id]] == Only(id))
  {
    var (keep, omitted) := Keep(sources);
    var r := RetireOthers(s, keep).(omitted := omitted);
    if id in s.table {
      assert EntryOk(s, id) && Live(s, s.table[id]);
      AddAllStays(r, order, id, s.table[id]);
    }
    if id in keep {
      var i :| 0 <= i < |order| && order[i].0 == id;
      AddAllServes(r, order, i);
    }
    if id !in s.table && id in AddAll(r, order).table {
      AddAllIsFresh(r, order, id);
    }
  }

  // ---------------------------------------------------------------- what starts, and what no longer does

  /** A schedule of a running service starts a collection in exactly the slots that are idle and not retired. */
  lemma ScheduleIsExact(s: Service, cancelled: bool, n: nat)
    requires n in s.slots
    ensures var t, x := Apply(s, DoSchedule(cancelled)), s.slots[n];
            && t == s.(slots := t.slots) && t.slots.Keys == s.slots.Keys
            && t.slots[n] == if !s.stopped && !cancelled && Live(s, n) && !x.busy && !x.retired
                             then x.(busy := true, collecting := x.collecting + 1) else x
  {
  }

  /** A stop retires every slot of the table, and sends a closer to the idle ones. */
  lemma StopIsExact(s: Service, n: nat)
    requires n in s.slots
    ensures var t, x := Apply(s, Stop), s.slots[n];
            && t == s.(slots := t.slots, stopped := true) && t.slots.Keys == s.slots.Keys
            && t.slots[n] == if !Live(s, n) || x.retired then x else x.(retired := true, due := if x.busy then x.due else x.due + 1)
  {
  }

  /** A discovery starts while the service runs. One that fails changes nothing more; one that ends after the
      stop only closes what it found without a slot. */
  lemma DiscoveryIsExact(s: Service, sources: seq<Option<string>>, failed: bool, order: seq<(string, nat)>)
    ensures Apply(s, Discover) == s.(discovering := s.discovering || !s.stopped)
    ensures var t := Apply(s, Discovered(sources, failed, order));
            && !t.discovering
            && (!s.discovering ==> t == s)
            && (s.stopped || failed ==> t == s.(discovering := false, discards := t.discards))
            && (!s.stopped ==> t.discards == s.discards)
  {
    if !s.stopped && !failed {
      var (keep, omitted) := Keep(sources);
      AddAllLeaves(RetireOthers(s.(discovering := false), keep).(omitted := omitted), order);
    }
  }

  /** Once the service is stopped, no collection starts, no source is added and no discovery begins. */
  lemma {:induction false} StoppedStartsNothing(s: Service, steps: seq<Step>, n: nat, id: string)
    requires s.stopped
    ensures var t := Continue(s, steps);
            && t.stopped && t.slots.Keys == s.slots.Keys && (t.discovering ==> s.discovering) && t.omitted == s.omitted
            && (n in s.slots ==> t.slots[n].collecting <= s.slots[n].collecting && t.slots[n].id == s.slots[n].id
                                 && (s.slots[n].retired ==> t.slots[n].retired))
            && (id in t.table ==> id in s.table && t.table[id] == s.table[id])
  {
    if steps != [] {
      StoppedStartsNothing(s, steps[..|steps| - 1], n, id);
      StoppedStep(Continue(s, steps[..|steps| - 1]), steps[|steps| - 1], n, id);
    }
  }

  function Continue(s: Service, steps: seq<Step>): Service {
    if steps == [] then s else Apply(Continue(s, steps[..|steps| - 1]), steps[|steps| - 1])
  }

  lemma StoppedStep(s: Service, step: Step, n: nat, id: string)
    requires s.stopped
    ensures var t := Apply(s, step);
            && t.stopped && t.slots.Keys == s.slots.Keys && (t.discovering ==> s.discovering) && t.omitted == s.omitted
            && (n in s.slots ==> t.slots[n].collecting <= s.slots[n].collecting && t.slots[n].id == s.slots[n].id
                                 && (s.slots[n].retired ==> t.slots[n].retired))
            && (id in t.table ==> id in s.table && t.table[id] == s.table[id])
  {
  }

  // ---------------------------------------------------------------- sources and slots

  lemma Extend(sources: seq<Option<string>>, order: seq<(string, nat)>, steps: seq<Step>, step: Step, s: Service)
    requires Run(sources, order, steps) == s
    ensures Run(sources, order, steps + [step]) == Apply(s, step)
  {
    assert (steps + [step])[..|steps|] == steps;
  }

  function Lone(id: string, x: Slot, live: bool, discovering: bool, stopped: bool): Service {
    Service(map[0 := x], if live then map[id := 0] else map[], discovering, stopped, 0, multiset{})
  }

  lemma FirstSource(id: string)
    ensures Run([Some(id)], [(id, 0)], []) == Lone(id, Only(id), true, false, false)
  {
    var order := [(id, 0)];
    assert order[..0] == [] && [Some(id)][..0] == [];
    assert Keep([]) == ({}, 0) && Keep([Some(id)]) == ({id}, 0);
    var r := RetireOthers(START, {id}).(omitted := 0);
    assert r == START;
    assert AddAll(START, []) == START && AddAll(START, order) == Add(START, id, 0);
  }

  function Only(id: string): Slot {
    Slot(id, false, false, 0, 0, 0, 0, 0, 0)
  }

  lemma StopTheOnly(id: string)
    ensures Apply(Lone(id, Only(id), true, false, false), Discover) == Lone(id, Only(id), true, true, false)
    ensures Apply(Lone(id, Only(id), true, true, false), Stop) == Lone(id, Only(id).(retired := true, due := 1), true, true, true)
  {
  }

  lemma RemoveTheOnly(id: string)
    ensures var x := Only(id).(retired := true);
            && Apply(Lone(id, x.(due := 1), true, true, true), CloseStarts(0)) == Lone(id, x.(closing := 1, closes := 1), true, true, true)
            && Apply(Lone(id, x.(closing := 1, closes := 1), true, true, true), CloseReturns(0)) ==
               Lone(id, x.(removing := 1, closes := 1), true, true, true)
            && Apply(Lone(id, x.(removing := 1, closes := 1), true, true, true), DoRemove(0)) == Lone(id, x.(closes := 1), false, true, true)
  {
  }

  /** A source with a slot, a discovery started, a stop, and the slot closed and removed. */
  lemma CloseTheOnly(id: string) returns (steps: seq<Step>)
    ensures Run([Some(id)], [(id, 0)], steps) == Lone(id, Only(id).(retired := true, closes := 1), false, true, true)
  {
    var order, sources, x := [(id, 0)], [Some(id)], Only(id).(retired := true);
    FirstSource(id);
    StopTheOnly(id);
    RemoveTheOnly(id);
    steps := [] + [Discover];
    Extend(sources, order, [], Discover, Lone(id, Only(id), true, false, false));
    Extend(sources, order, steps, Stop, Lone(id, Only(id), true, true, false));
    steps := steps + [Stop];
    Extend(sources, order, steps, CloseStarts(0), Lone(id, x.(due := 1), true, true, true));
    steps := steps + [CloseStarts(0)];
    Extend(sources, order, steps, CloseReturns(0), Lone(id, x.(closing := 1, closes := 1), true, true, true));
    steps := steps + [CloseReturns(0)];
    Extend(sources, order, steps, DoRemove(0), Lone(id, x.(removing := 1, closes := 1), true, true, true));
    steps := steps + [DoRemove(0)];
  }

  /** For sources, as against slots, closing once is not a law: a discovery still running at the stop may
      return a source whose slot has been closed and removed by then, and closes it once more. */
  lemma ASourceMayBeClosedAgain(id: string) returns (steps: seq<Step>)
    ensures var s := Run([Some(id)], [(id, 0)], steps);
            0 in s.slots && s.slots[0].id == id && s.slots[0].closes == 1 && s.discards[id] == 1
  {
    var before := CloseTheOnly(id);
    var s := Lone(id, Only(id).(retired := true, closes := 1), false, true, true);
    var last := Discovered([Some(id)], false, []);
    Extend([Some(id)], [(id, 0)], before, last, s);
    assert [Some(id)][..0] == [];
    assert Strays(map[], [Some(id)]) == Strays(map[], []) + multiset{id};
    steps := before + [last];
  }

  /** It closes exactly the sources it returns that have no slot at that moment, each as often as returned. */
  lemma {:induction false} StraysHaveNoSlot(table: map<string, nat>, sources: seq<Option<string>>, id: string)
    ensures Strays(table, sources)[id] > 0 <==> id !in table && Some(id) in sources
  {
    if sources != [] {
      StraysHaveNoSlot(table, sources[..|sources| - 1], id);
    }
  }

  // ---------------------------------------------------------------- the service object

  method FindStrays(table: map<string, nat>, sources: seq<Option<string>>) returns (strays: multiset<string>)
    ensures strays == Strays(table, sources)
  {
    strays := multiset{};
    for i := 0 to |sources|
      invariant strays == Strays(table, sources[..i])
    {
      assert sources[..i + 1][..i] == sources[..i];
      if sources[i].Some? && sources[i].value !in table {
        strays := strays + multiset{sources[i].value};
      }
    }
    assert sources[..|sources|] == sources;
  }

  method KeepSources(sources: seq<Option<string>>) returns (keep: set<string>, omitted: nat)
    ensures (keep, omitted) == Keep(sources)
  {
    keep, omitted := {}, 0;
    for i := 0 to |sources|
      invariant (keep, omitted) == Keep(sources[..i])
    {
      assert sources[..i + 1][..i] == sources[..i];
      if sources[i].Some? {
        if |keep| >= MAX_SOURCES {
          omitted := omitted + 1;
        } else {
          keep := keep + {sources[i].value};
        }
      }
    }
    assert sources[..|sources|] == sources;
  }

  /** No more than the bound is kept, and a valid source is missing only when something was omitted. */
  lemma {:induction false} KeepIsBounded(sources: seq<Option<string>>)
    ensures |Keep(sources).0| <= MAX_SOURCES
    ensures forall i :: 0 <= i < |sources| && sources[i].Some? ==> sources[i].value in Keep(sources).0 || Keep(sources).1 > 0
  {
    if sources != [] {
      KeepIsBounded(sources[..|sources| - 1]);
      assert forall i :: 0 <= i < |sources| - 1 ==> sources[i] == sources[..|sources| - 1][i];
    }
  }

  /** The valid entries that found no room. */
  function Overflow(sources: seq<Option<string>>): set<int> {
    set i | 0 <= i < |sources| && sources[i].Some? && |Keep(sources[..i]).0| >= 512
  }

  lemma OverflowStep(sources: seq<Option<string>>)
    requires sources != []
    ensures var n := |sources| - 1;
            Overflow(sources) == Overflow(sources[..n]) + if sources[n].Some? && |Keep(sources[..n]).0| >= 512 then {n} else {}
  {
    var n := |sources| - 1;
    forall i | 0 <= i < n ensures sources[..n][..i] == sources[..i] && sources[..n][i] == sources[i] {}
  }

  /** What finds no room is counted ... */
  lemma {:induction false} OmittedIsCounted(sources: seq<Option<string>>)
    ensures Keep(sources).1 == |Overflow(sources)|
  {
    if sources != [] {
      OmittedIsCounted(sources[..|sources| - 1]);
      OverflowStep(sources);
    }
  }

  /** ... and only valid sources are kept, all of them if there is room. */
  lemma {:induction false} KeepIsExact(sources: seq<Option<string>>, id: string)
    ensures id in Keep(sources).0 ==> Some(id) in sources
    ensures Some(id) in sources && Keep(sources).1 == 0 ==> id in Keep(sources).0
  {
    if sources != [] {
      KeepIsExact(sources[..|sources| - 1], id);
      assert Some(id) in sources <==> Some(id) in sources[..|sources| - 1] || sources[|sources| - 1] == Some(id);
    }
  }

  lemma ScheduleOne(s: Service, rest: set<string>, id: string)
    requires Ok(s) && id in s.table && id in rest
    ensures s.table[id] in s.slots && Schedule(s, rest).slots[s.table[id]] == s.slots[s.table[id]]
    ensures Schedule(s, rest - {id}) == Set(Schedule(s, rest), s.table[id], Begin(s.slots[s.table[id]]))
  {
    assert EntryOk(s, id);
  }

  lemma RetireNone(s: Service, keep: set<string>)
    ensures RetireOthers(s, keep + s.table.Keys) == s
  {
  }

  lemma RetireOne(s: Service, keep: set<string>, rest: set<string>, id: string)
    requires Ok(s) && id in s.table && id in rest
    ensures s.table[id] in s.slots && RetireOthers(s, keep + rest).slots[s.table[id]] == s.slots[s.table[id]]
    ensures RetireOthers(s, keep + (rest - {id})) ==
            if id in keep then RetireOthers(s, keep + rest) else Set(RetireOthers(s, keep + rest), s.table[id], Retire(s.slots[s.table[id]]))
  {
    assert EntryOk(s, id);
  }

  /** The bookkeeping under the service's mutex. */
  class Slots {
    var slots: map<nat, Slot>
    var table: map<string, nat>
    var discovering: bool
    var stopped: bool
    var omitted: nat
    var discards: multiset<string>

    ghost function View(): Service
      reads this
    {
      Service(slots, table, discovering, stopped, omitted, discards)
    }

    constructor ()
      ensures View() == START
    {
      slots, table, discovering, stopped, omitted, discards := map[], map[], false, false, 0, multiset{};
    }

    method ScheduleAll(cancelled: bool)
      requires Ok(View())
      modifies this
      ensures View() == Apply(old(View()), DoSchedule(cancelled))
    {
      if stopped || cancelled {
        return;
      }
      ghost var start := View();
      var rest := table.Keys;
      assert Schedule(start, rest) == start;
      while rest != {}
        invariant rest <= start.table.Keys && View() == Schedule(start, rest)
        decreases |rest|
      {
        var id :| id in rest;
        ScheduleOne(start, rest, id);
        var n := table[id];
        if !slots[n].busy && !slots[n].retired {
          slots := slots[n := slots[n].(busy := true, collecting := slots[n].collecting + 1)];
        }
        rest := rest - {id};
      }
    }

    /** Retires every slot whose source is not kept. */
    method RetireAll(keep: set<string>)
      requires Ok(View())
      modifies this
      ensures View() == RetireOthers(old(View()), keep)
    {
      ghost var start := View();
      var rest := table.Keys;
      RetireNone(start, keep);
      while rest != {}
        invariant rest <= start.table.Keys && View() == RetireOthers(start, keep + rest)
        decreases |rest|
      {
        var id :| id in rest;
        RetireOne(start, keep, rest, id);
        var n := table[id];
        if id !in keep {
          slots := slots[n := Retire(slots[n])];
        }
        rest := rest - {id};
      }
      assert keep + rest == keep;
    }

    method AddSources(order: seq<(string, nat)>)
      requires forall i :: 0 <= i < |order| ==> order[i].1 !in slots
      requires forall i, j :: 0 <= i < j < |order| ==> order[i].1 != order[j].1
      modifies this
      ensures View() == AddAll(old(View()), order)
    {
      ghost var r := View();
      for i := 0 to |order|
        invariant View() == AddAll(r, order[..i])
      {
        assert order[..i + 1][..i] == order[..i];
        AddAllStays(r, order[..i], "", order[i].1);
        if order[i].0 !in table {
          if |table| >= MAX_SOURCES {
            omitted := omitted + 1;
          } else {
            slots := slots[order[i].1 := Slot(order[i].0, false, false, 0, 0, 0, 0, 0, 0)];
            table := table[order[i].0 := order[i].1];
          }
        }
      }
      assert order[..|order|] == order;
    }

    method ReplaceSources(sources: seq<Option<string>>, order: seq<(string, nat)>)
      requires Ok(View()) && Enumerates(View(), order, Keep(sources).0)
      modifies this
      ensures View() == Replace(old(View()), sources, order)
    {
      var keep, over := KeepSources(sources);
      RetireAll(keep);
      omitted := over;
      AddSources(order);
    }

    /** A discovery that ends after the stop closes the sources it found that have no slot, failed or not. */
    method DiscardStrays(sources: seq<Option<string>>, failed: bool)
      requires discovering && stopped
      modifies this
      ensures View() == Apply(old(View()), Discovered(sources, failed, []))
    {
      discovering := false;
      var strays := FindStrays(table, sources);
      discards := discards + strays;
    }

    /** A collector that got the lock back; the result says whether it goes on to close the slot. */
    method Collected(n: nat) returns (close: bool)
      requires Ok(View()) && n in slots && slots[n].settling > 0
      modifies this
      ensures View() == Apply(old(View()), DoSettle(n)) && Ok(View())
      ensures close == old(slots[n]).retired
    {
      StepKeeps(View(), DoSettle(n));
      assert SlotOk(View(), n);
      slots := slots[n := slots[n].(busy := false, settling := slots[n].settling - 1)];
      close := slots[n].retired || stopped;
      if close {
        slots := slots[n := slots[n].(due := slots[n].due + 1)];
      }
    }

    method StopAll()
      requires Ok(View())
      modifies this
      ensures View() == Apply(old(View()), Stop) && Ok(View())
    {
      StepKeeps(View(), Stop);
      RetireAll({});
      stopped := true;
    }
  }
}
