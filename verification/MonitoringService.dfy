/** The monitoring service and the dashboard's merge in the step-by-step form of the source,
    proved against the delta protocol. */
module MonitoringService {
  import opened Wrappers
  import opened MonitoringDelta

  // ---------------------------------------------------------------- server side

  lemma {:induction false} BytesAppend(samples: seq<Sample>, sample: Sample)
    ensures Bytes(samples + [sample]) == Bytes(samples) + |sample.data| + OVERHEAD
  {
    if samples == [] {
      assert [sample][1..] == [];
    } else {
      assert (samples + [sample])[1..] == samples[1..] + [sample];
      BytesAppend(samples[1..], sample);
    }
  }

  lemma DropOldest(log: seq<Sample>, start: nat)
    requires start < |log|
    ensures log[start..][1..] == log[start + 1..]
    ensures Bytes(log[start..]) == |log[start].data| + OVERHEAD + Bytes(log[start + 1..])
  {
    assert log[start..][1..] == log[start + 1..];
  }

  /** An answer in terms of the two searches it is made of. */
  lemma AnswerFrom(s: Server, cursor: Option<Cursor>, now: int, budget: int, encoded: seq<Sample> -> nat, size: nat)
    requires s.start <= |s.log|
    requires Shrink(s.log, Newest(s, |s.log|, NeedsReset(s, cursor), Since(cursor), budget).0, encoded, size).Some?
    ensures var reset := NeedsReset(s, cursor);
            var (newest, short) := Newest(s, |s.log|, reset, Since(cursor), budget);
            var first := Shrink(s.log, newest, encoded, size).value;
            var trimmed := short || first != newest;
            var oldest := if trimmed then s.log[first..] else s.log[s.start..];
            Answer(s, cursor, now, budget, encoded, size) ==
            Some(Response(s.generation, reset, now, if |oldest| > 0 then oldest[0].at else now,
                          Cursor(s.generation, s.sequence, s.inventory),
                          if reset || cursor.value.inventory != s.inventory then Some(s.inventory) else None,
                          s.log[first..], trimmed))
  {
  }

  class Service {
    const generation: string
    const limit: nat
    var sequence: nat
    var history: seq<Sample>
    var historyBytes: int
    var inventory: Inventory
    ghost var log: seq<Sample>
    ghost var start: nat
    ghost var clock: int

    /** The accounted bytes are always those of the stored samples. */
    ghost predicate Valid()
      reads this
    {
      start <= |log| && history == log[start..] && historyBytes == Bytes(history)
    }

    ghost function View(): Server
      reads this
    {
      Server(generation, sequence, log, start, limit, inventory, clock)
    }

    constructor (generation: string, limit: nat, clock: int)
      ensures Valid() && View() == Boot(generation, limit, clock).server
    {
      this.generation, this.limit := generation, limit;
      sequence, history, historyBytes, inventory := 0, [], 0, "";
      log, start, this.clock := [], 0, clock;
    }

    method Prune(now: int)
      requires Valid()
      modifies `history, `historyBytes, `start, `clock
      ensures Valid() && View() == Pruned(old(View()), now)
    {
      while |history| > 0 && (|history| > MAX_SAMPLES || now - history[0].at > HISTORY_WINDOW || historyBytes > limit)
        invariant Valid()
        invariant MonitoringDelta.Prune(log, start, limit, now) == MonitoringDelta.Prune(log, old(start), limit, now)
        decreases |history|
      {
        assert Overfull(log, start, limit, now);
        DropFirst();
      }
      assert !Overfull(log, start, limit, now);
      clock := now;
    }

    method DropFirst()
      requires Valid() && |history| > 0
      modifies `history, `historyBytes, `start
      ensures Valid() && start == old(start) + 1 && |history| == old(|history|) - 1
    {
      DropOldest(log, start);
      historyBytes := historyBytes - (|history[0].data| + OVERHEAD);
      history := history[1..];
      start := start + 1;
    }

    method Record(now: int, data: string, encodes: bool)
      requires Valid()
      modifies this
      ensures Valid() && View() == MonitoringDelta.Record(old(View()), now, data, encodes)
    {
      sequence := sequence + 1;
      clock := now;
      if !encodes {
        return;
      }
      Append(Sample(sequence, now, data));
      Prune(now);
    }

    method Append(sample: Sample)
      requires Valid()
      modifies `history, `historyBytes, `log
      ensures Valid() && log == old(log) + [sample]
    {
      BytesAppend(history, sample);
      history := history + [sample];
      log := log + [sample];
      assert log[start..] == history;
      historyBytes := historyBytes + |sample.data| + OVERHEAD;
    }

    /** Walks back from the newest sample while the budget lasts. */
    method FindFirst(reset: bool, since: nat, budget: int) returns (first: nat, trimmed: bool)
      requires Valid()
      ensures first <= |history|
      ensures (start + first, trimmed) == Newest(View(), |log|, reset, since, budget)
    {
      var left := budget;
      first, trimmed := |history|, false;
      while first > 0
        invariant first <= |history| && !trimmed
        invariant Newest(View(), start + first, reset, since, left) == Newest(View(), |log|, reset, since, budget)
      {
        var entry := history[first - 1];
        assert entry == log[start + first - 1];
        if !reset && entry.sequence <= since {
          return;
        }
        var size := |entry.data| + 1;
        if size > left {
          trimmed := true;
          return;
        }
        left := left - size;
        first := first - 1;
      }
    }

    /** Drops samples from the front until the encoded response fits. */
    method Fit(first: nat, encoded: seq<Sample> -> nat, size: nat) returns (fits: bool, samples: seq<Sample>)
      requires Valid() && first <= |history|
      ensures var r := Shrink(log, start + first, encoded, size);
              && fits == r.Some?
              && (fits ==> samples == log[r.value..])
    {
      samples := history[first..];
      ghost var at: nat := start + first;
      while encoded(samples) > size
        invariant at <= |log| && samples == log[at..]
        invariant Shrink(log, at, encoded, size) == Shrink(log, start + first, encoded, size)
        decreases |samples|
      {
        if samples == [] {
          return false, [];
        }
        samples := samples[1..];
        at := at + 1;
      }
      fits := true;
    }

    method MustReset(cursor: Option<Cursor>) returns (reset: bool, since: nat)
      requires Valid()
      ensures reset == NeedsReset(View(), cursor) && since == Since(cursor)
    {
      reset, since := cursor.None?, 0;
      if !reset {
        var previous := cursor.value;
        since := previous.sequence;
        reset := previous.generation != generation || since > sequence;
        assert |history| > 0 ==> history[0] == log[start];
        if |history| > 0 && since < history[0].sequence - 1 {
          reset := true;
        }
        if |history| == 0 && since < sequence {
          reset := true;
        }
      }
    }

    method Snapshot(cursor: Option<Cursor>, now: int, budget: int, encoded: seq<Sample> -> nat, size: nat)
      returns (r: Option<Response>)
      requires Valid()
      modifies `history, `historyBytes, `start, `clock
      ensures Valid() && View() == Pruned(old(View()), now)
      ensures r == Answer(View(), cursor, now, budget, encoded, size)
    {
      Prune(now);
      r := Reply(cursor, now, budget, encoded, size);
    }

    method Reply(cursor: Option<Cursor>, now: int, budget: int, encoded: seq<Sample> -> nat, size: nat)
      returns (r: Option<Response>)
      requires Valid()
      ensures r == Answer(View(), cursor, now, budget, encoded, size)
    {
      var reset, since := MustReset(cursor);
      var first, trimmed := FindFirst(reset, since, budget);
      var fits, samples := Fit(first, encoded, size);
      if !fits {
        return None;
      }
      ghost var at := Shrink(log, start + first, encoded, size).value;
      RespondIsAnswer(cursor, now, budget, encoded, size, first, trimmed, at);
      r := Some(Respond(cursor, now, reset, first, trimmed, samples));
    }

    lemma RespondIsAnswer(cursor: Option<Cursor>, now: int, budget: int, encoded: seq<Sample> -> nat, size: nat, first: nat, short: bool, at: nat)
      requires Valid() && first <= |history|
      requires (start + first, short) == Newest(View(), |log|, NeedsReset(View(), cursor), Since(cursor), budget)
      requires Shrink(log, start + first, encoded, size) == Some(at)
      ensures Answer(View(), cursor, now, budget, encoded, size) ==
              Some(Respond(cursor, now, NeedsReset(View(), cursor), first, short, log[at..]))
    {
      AnswerFrom(View(), cursor, now, budget, encoded, size);
    }

    /** The response built from the samples that fit. */
    function Respond(cursor: Option<Cursor>, now: int, reset: bool, first: nat, short: bool, samples: seq<Sample>): Response
      requires !reset ==> cursor.Some?
      requires first <= |history|
      reads this
    {
      var trimmed := short || |samples| != |history| - first;
      var oldest := if trimmed then samples else history;
      Response(generation, reset, now, if |oldest| > 0 then oldest[0].at else now, Cursor(generation, sequence, inventory),
               if reset || cursor.value.inventory != inventory then Some(inventory) else None, samples, trimmed)
    }
  }

  // ---------------------------------------------------------------- client side

  predicate Strict(samples: seq<Sample>) {
    forall i, j :: 0 <= i < j < |samples| ==> samples[i].sequence < samples[j].sequence
  }

  lemma {:induction false} StrictUnique(a: seq<Sample>, b: seq<Sample>)
    requires Strict(a) && Strict(b) && forall s :: s in a <==> s in b
    ensures a == b
  {
    assert a != [] ==> a[0] in a;
    assert b != [] ==> b[0] in b;
    if a != [] && b != [] {
      SameHead(a, b);
      var a1, b1 := a[1..], b[1..];
      assert forall s :: s in a1 <==> s in a && s != a[0];
      assert forall s :: s in b1 <==> s in b && s != b[0];
      StrictUnique(a1, b1);
    }
  }

  lemma SameHead(a: seq<Sample>, b: seq<Sample>)
    requires Strict(a) && Strict(b) && a != [] && b != [] && forall s :: s in a <==> s in b
    ensures a[0] == b[0]
  {
    assert a[0] in b && b[0] in a;
  }

  lemma {:induction false} KeepElements(samples: seq<Sample>, cutoff: int)
    ensures forall s :: s in Keep(samples, cutoff) <==> s in samples && s.at >= cutoff
  {
    if samples != [] {
      KeepElements(samples[1..], cutoff);
    }
  }

  lemma {:induction false} KeepStrict(samples: seq<Sample>, cutoff: int)
    requires Strict(samples)
    ensures Strict(Keep(samples, cutoff))
  {
    if samples != [] {
      KeepStrict(samples[1..], cutoff);
      KeepElements(samples[1..], cutoff);
    }
  }

  /** The map filled by the merge: the last offered sample of each sequence number that is late enough. */
  method Retain(offered: seq<Sample>, cutoff: int) returns (retained: map<nat, Sample>)
    ensures forall k :: k in retained ==> retained[k] in offered && retained[k].at >= cutoff && retained[k].sequence == k
    ensures forall i :: 0 <= i < |offered| && offered[i].at >= cutoff ==> offered[i].sequence in retained
  {
    retained := map[];
    for i := 0 to |offered|
      invariant forall k :: k in retained ==> retained[k] in offered && retained[k].at >= cutoff && retained[k].sequence == k
      invariant forall j :: 0 <= j < i && offered[j].at >= cutoff ==> offered[j].sequence in retained
    {
      if offered[i].at >= cutoff {
        retained := retained[offered[i].sequence := offered[i]];
      }
    }
  }

  method Smallest(keys: set<nat>) returns (k: nat)
    requires keys != {}
    ensures k in keys && forall x :: x in keys ==> k <= x
  {
    k :| k in keys;
    var rest := keys - {k};
    while rest != {}
      invariant k in keys && rest <= keys && forall y :: y in keys ==> y in rest || k <= y
      decreases |rest|
    {
      var x :| x in rest;
      rest := rest - {x};
      if x < k {
        k := x;
      }
    }
  }

  /** The retained samples in order of their sequence numbers. */
  method Ordered(retained: map<nat, Sample>) returns (samples: seq<Sample>)
    requires forall k :: k in retained ==> retained[k].sequence == k
    ensures Strict(samples)
    ensures forall s :: s in samples <==> s.sequence in retained && retained[s.sequence] == s
  {
    samples := [];
    var rest := retained.Keys;
    while rest != {}
      invariant rest <= retained.Keys && Strict(samples)
      invariant forall s :: s in samples <==> s.sequence in retained.Keys - rest && retained[s.sequence] == s
      invariant forall i, k :: 0 <= i < |samples| && k in rest ==> samples[i].sequence < k
      decreases |rest|
    {
      var k := Smallest(rest);
      samples := samples + [retained[k]];
      rest := rest - {k};
    }
  }

  /** The dashboard's merge. On samples offered in order it is exactly the protocol's merge. */
  method MergeMonitoring(previous: Option<Client>, r: Response) returns (c: Client)
    ensures Strict(c.samples) && |c.samples| <= MAX_SAMPLES
    ensures Strict(Offered(previous, r)) ==> c == Merge(previous, r)
  {
    var over := r.reset || previous.None? || previous.value.generation != r.generation;
    var kept := if r.inventory.Some? then r.inventory.value else if over then "" else previous.value.inventory;
    var offered := (if over then [] else previous.value.samples) + r.samples;
    var retained := Retain(offered, Cutoff(r));
    var all := Ordered(retained);
    if Strict(offered) {
      OrderedIsKept(offered, Cutoff(r), retained, all);
    }
    c := Client(r.generation, r.cursor, kept, Newer(all, MAX_SAMPLES),
                !r.trimmed && (over || previous.value.complete));
  }

  lemma OrderedIsKept(offered: seq<Sample>, cutoff: int, retained: map<nat, Sample>, all: seq<Sample>)
    requires Strict(offered) && Strict(all)
    requires forall k :: k in retained ==> retained[k] in offered && retained[k].at >= cutoff && retained[k].sequence == k
    requires forall i :: 0 <= i < |offered| && offered[i].at >= cutoff ==> offered[i].sequence in retained
    requires forall s :: s in all <==> s.sequence in retained && retained[s.sequence] == s
    ensures all == Keep(offered, cutoff)
  {
    KeepStrict(offered, cutoff);
    KeepElements(offered, cutoff);
    forall s ensures s in all <==> s in Keep(offered, cutoff) {
      if s in Keep(offered, cutoff) {
        var i :| 0 <= i < |offered| && offered[i] == s;
        var t := retained[s.sequence];
        var j :| 0 <= j < |offered| && offered[j] == t;
        assert i == j;
      }
    }
    StrictUnique(all, Keep(offered, cutoff));
  }

  /** In every reachable state a response is offered to the merge in order. */
  lemma OfferedInOrder(s: Server, previous: Option<Client>, now: int, budget: int,
                       encoded: seq<Sample> -> nat, limit: nat)
    requires ServerOk(s) && s.clock == now
    requires previous.Some? ==> InSync(s, previous.value)
    requires Answer(s, ClientCursor(previous), now, budget, encoded, limit).Some?
    ensures Strict(Offered(previous, Answer(s, ClientCursor(previous), now, budget, encoded, limit).value))
  {
    var r := Answer(s, ClientCursor(previous), now, budget, encoded, limit).value;
    var first := AnswerFirst(s, ClientCursor(previous), now, budget, encoded, limit);
    if !StartsOver(previous, r) {
      ConcatInOrder(s.log, Begin(s, previous.value), End(s, previous.value), first);
    }
  }

  lemma ConcatInOrder(log: seq<Sample>, begin: int, end: int, first: int)
    requires Ascending(log) && 0 <= begin <= end <= first <= |log|
    ensures Strict(log[begin..end] + log[first..])
  {
    var all := log[begin..end] + log[first..];
    forall i, j | 0 <= i < j < |all| ensures all[i].sequence < all[j].sequence {
      var x := if i < end - begin then begin + i else first + (i - (end - begin));
      var y := if j < end - begin then begin + j else first + (j - (end - begin));
      assert all[i] == log[x] && all[j] == log[y];
    }
  }
}
