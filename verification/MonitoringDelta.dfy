/** The monitoring history, its cursor and delta responses, and the merge done by the dashboard. */
module MonitoringDelta {
  import opened Wrappers

  const MAX_SAMPLES: nat := 151
  const HISTORY_WINDOW: int := 300000
  const OVERHEAD: nat := 64

  datatype Sample = Sample(sequence: nat, at: int, data: string)

  /** The revision in a cursor is a digest of the inventory; it stands here for the inventory itself. */
  type Inventory = string

  datatype Cursor = Cursor(generation: string, sequence: nat, inventory: Inventory)

  /** `log` lists all samples ever stored; the history still held is the part from `start` on.
      `clock` is the last time read. */
  datatype Server = Server(generation: string, sequence: nat, log: seq<Sample>, start: nat, limit: nat,
                           inventory: Inventory, clock: int)

  datatype Response = Response(generation: string, reset: bool, serverTime: int, windowStart: int,
                               cursor: Cursor, inventory: Option<Inventory>, samples: seq<Sample>, trimmed: bool)

  datatype Client = Client(generation: string, cursor: Cursor, inventory: Inventory, samples: seq<Sample>,
                           complete: bool)

  // ---------------------------------------------------------------- the server

  /** Accounted size of a stretch of samples. */
  function Bytes(samples: seq<Sample>): nat {
    if samples == [] then 0 else |samples[0].data| + OVERHEAD + Bytes(samples[1..])
  }

  function History(s: Server): seq<Sample>
    requires s.start <= |s.log|
  {
    s.log[s.start..]
  }

  predicate Overfull(log: seq<Sample>, start: nat, limit: nat, now: int)
    requires start <= |log|
  {
    start < |log| &&
    (|log| - start > MAX_SAMPLES || now - log[start].at > HISTORY_WINDOW || Bytes(log[start..]) > limit)
  }

  function Prune(log: seq<Sample>, start: nat, limit: nat, now: int): (r: nat)
    requires start <= |log|
    ensures start <= r <= |log| && !Overfull(log, r, limit, now)
    decreases |log| - start
  {
    if Overfull(log, start, limit, now) then Prune(log, start + 1, limit, now) else start
  }

  /** One tick of the sampler; `encodes` is false when the sample cannot be marshalled. */
  function Record(s: Server, now: int, data: string, encodes: bool): Server
    requires s.start <= |s.log|
  {
    var next := s.(sequence := s.sequence + 1, clock := now);
    if !encodes then next
    else
      var log := s.log + [Sample(s.sequence + 1, now, data)];
      next.(log := log, start := Prune(log, s.start, s.limit, now))
  }

  predicate NeedsReset(s: Server, cursor: Option<Cursor>)
    requires s.start <= |s.log|
  {
    cursor.None? ||
    (var c := cursor.value;
     || c.generation != s.generation
     || c.sequence > s.sequence
     || (s.start < |s.log| && c.sequence < s.log[s.start].sequence - 1)
     || (s.start == |s.log| && c.sequence < s.sequence))
  }

  /** The newest samples that fit the budget: index of the first, and whether an older one that
      should have been sent did not fit. `top` is the index after the next candidate. */
  function Newest(s: Server, top: nat, reset: bool, since: nat, budget: int): (r: (nat, bool))
    requires s.start <= top <= |s.log|
    ensures s.start <= r.0 <= top
  {
    if top == s.start then (top, false)
    else
      var entry := s.log[top - 1];
      if !reset && entry.sequence <= since then (top, false)
      else if |entry.data| + 1 > budget then (top, true)
      else Newest(s, top - 1, reset, since, budget - |entry.data| - 1)
  }

  /** Drops the oldest samples until the encoded response fits. */
  function Shrink(log: seq<Sample>, first: nat, encoded: seq<Sample> -> nat, limit: nat): (r: Option<nat>)
    requires first <= |log|
    ensures r.Some? ==> first <= r.value <= |log|
    decreases |log| - first
  {
    if encoded(log[first..]) <= limit then Some(first)
    else if first == |log| then None
    else Shrink(log, first + 1, encoded, limit)
  }

  function Since(cursor: Option<Cursor>): nat {
    if cursor.Some? then cursor.value.sequence else 0
  }

  /** Time of the entry at `i`, or the present when there is none. */
  function TimeAt(s: Server, i: nat, now: int): int {
    if i < |s.log| then s.log[i].at else now
  }

  /** The answer built from an already pruned history. */
  function Answer(s: Server, cursor: Option<Cursor>, now: int, budget: int,
                  encoded: seq<Sample> -> nat, limit: nat): Option<Response>
    requires s.start <= |s.log|
  {
    var reset := NeedsReset(s, cursor);
    var (newest, short) := Newest(s, |s.log|, reset, Since(cursor), budget);
    match Shrink(s.log, newest, encoded, limit)
    case None => None
    case Some(first) =>
      var trimmed := short || first != newest;
      Some(Response(s.generation, reset, now, TimeAt(s, if trimmed then first else s.start, now),
                    Cursor(s.generation, s.sequence, s.inventory),
                    if reset || cursor.value.inventory != s.inventory then Some(s.inventory) else None,
                    s.log[first..], trimmed))
  }

  function Pruned(s: Server, now: int): Server
    requires s.start <= |s.log|
  {
    s.(start := Prune(s.log, s.start, s.limit, now), clock := now)
  }

  // ---------------------------------------------------------------- the dashboard

  function Keep(samples: seq<Sample>, cutoff: int): seq<Sample> {
    if samples == [] then []
    else (if samples[0].at >= cutoff then [samples[0]] else []) + Keep(samples[1..], cutoff)
  }

  function Newer(samples: seq<Sample>, n: nat): seq<Sample> {
    if |samples| > n then samples[|samples| - n..] else samples
  }

  function Cutoff(r: Response): int {
    if r.windowStart > r.serverTime - HISTORY_WINDOW then r.windowStart else r.serverTime - HISTORY_WINDOW
  }

  predicate StartsOver(previous: Option<Client>, r: Response) {
    r.reset || previous.None? || previous.value.generation != r.generation
  }

  /** The samples the merge is given, oldest first. */
  function Offered(previous: Option<Client>, r: Response): seq<Sample> {
    (if StartsOver(previous, r) then [] else previous.value.samples) + r.samples
  }

  function Merge(previous: Option<Client>, r: Response): Client {
    var over := StartsOver(previous, r);
    Client(r.generation, r.cursor,
           if r.inventory.Some? then r.inventory.value else if over then "" else previous.value.inventory,
           Newer(Keep(Offered(previous, r), Cutoff(r)), MAX_SAMPLES),
           !r.trimmed && (over || previous.value.complete))
  }

  // ---------------------------------------------------------------- runs

  datatype System = System(server: Server, client: Option<Client>)

  datatype Step =
    | Tick(now: int, data: string, encodes: bool)
    | Poll(now: int, budget: int, encoded: seq<Sample> -> nat, limit: nat)
    | Discover(inventory: Inventory)
    | Restart(generation: string, clock: int)
    | Reload

  /** Clock readings do not go back, sample times strictly increase, generations are fresh. */
  predicate Allowed(sys: System, step: Step) {
    match step
    case Tick(now, data, encodes) => MayRecord(sys.server, now)
    case Poll(now, _, _, _) => now >= sys.server.clock
    case Discover(_) => true
    case Restart(generation, _) => sys.client.Some? ==> generation != sys.client.value.generation
    case Reload => true
  }

  predicate MayRecord(s: Server, now: int) {
    now >= s.clock && (s.log != [] ==> now > s.log[|s.log| - 1].at)
  }

  function ClientCursor(client: Option<Client>): Option<Cursor> {
    if client.None? then None else Some(client.value.cursor)
  }

  function Next(sys: System, step: Step): System
    requires sys.server.start <= |sys.server.log|
  {
    match step
    case Tick(now, data, encodes) => sys.(server := Record(sys.server, now, data, encodes))
    case Poll(now, budget, encoded, limit) =>
      var s := Pruned(sys.server, now);
      (match Answer(s, ClientCursor(sys.client), now, budget, encoded, limit)
       case None => System(s, sys.client)
       case Some(r) => System(s, Some(Merge(sys.client, r))))
    case Discover(inventory) => sys.(server := sys.server.(inventory := inventory))
    case Restart(generation, clock) =>
      sys.(server := Server(generation, 0, [], 0, sys.server.limit, sys.server.inventory, clock))
    case Reload => sys.(client := None)
  }

  // ---------------------------------------------------------------- invariants

  predicate Ascending(log: seq<Sample>) {
    forall i, j :: 0 <= i < j < |log| ==> log[i].sequence < log[j].sequence && log[i].at < log[j].at
  }

  ghost predicate ServerOk(s: Server) {
    && s.start <= |s.log| && Ascending(s.log) && Stamped(s.log, s.sequence, s.clock) && Fits(s.log, s.start, s.limit)
  }

  predicate Stamped(log: seq<Sample>, sequence: nat, clock: int) {
    forall i :: 0 <= i < |log| ==> 1 <= log[i].sequence <= sequence && log[i].at <= clock
  }

  predicate Fits(log: seq<Sample>, start: nat, limit: nat)
    requires start <= |log|
  {
    |log| - start <= MAX_SAMPLES && Bytes(log[start..]) <= limit
  }

  /** Number of log entries, out of the first `n`, up to a cursor position. */
  function Upto(log: seq<Sample>, n: nat, since: nat): (r: nat)
    requires n <= |log|
    ensures r <= n && (r > 0 ==> log[r - 1].sequence <= since)
    ensures forall i :: r <= i < n ==> log[i].sequence > since
  {
    if n == 0 || log[n - 1].sequence <= since then n else Upto(log, n - 1, since)
  }

  /** The client holds entries `begin` to `end` of the log. */
  ghost predicate Holds(s: Server, c: Client, begin: int, end: int) {
    0 <= begin <= end <= |s.log| && c.samples == s.log[begin..end]
  }

  function End(s: Server, c: Client): int {
    Upto(s.log, |s.log|, c.cursor.sequence)
  }

  function Begin(s: Server, c: Client): int {
    End(s, c) - |c.samples|
  }

  /** The client holds an unbroken stretch of the log ending at its cursor; if no response since
      its last reset was trimmed, the stretch starts no later than the server's history. */
  ghost predicate InSync(s: Server, c: Client) {
    && c.generation == c.cursor.generation
    && c.inventory == c.cursor.inventory
    && (c.generation == s.generation ==>
          && c.cursor.sequence <= s.sequence
          && Holds(s, c, Begin(s, c), End(s, c))
          && (c.complete ==> Begin(s, c) <= s.start)
          && forall i :: Begin(s, c) <= i < End(s, c) && i < s.start ==> s.log[i].at < s.clock)
  }

  ghost predicate Ok(sys: System) {
    ServerOk(sys.server) && (sys.client.Some? ==> InSync(sys.server, sys.client.value))
  }

  /** What a poll leaves in the client: the newest part of the server's history, all of it
      when nothing was trimmed since the last reset, together with the server's inventory. */
  ghost predicate Refreshed(s: Server, c: Client)
    requires s.start <= |s.log|
  {
    && c.generation == s.generation
    && c.cursor == Cursor(s.generation, s.sequence, s.inventory)
    && c.inventory == s.inventory
    && |c.samples| <= |History(s)|
    && c.samples == s.log[|s.log| - |c.samples|..]
    && (c.complete ==> c.samples == History(s))
  }

  // ---------------------------------------------------------------- recording and pruning

  lemma {:induction false} BytesSuffix(samples: seq<Sample>, k: nat)
    requires k <= |samples|
    ensures Bytes(samples[k..]) <= Bytes(samples)
  {
    if k != 0 {
      BytesSuffix(samples[1..], k - 1);
      assert samples[1..][k - 1..] == samples[k..];
    }
  }

  /** A settled history only loses samples older than the window. */
  lemma {:induction false} PrunedByAge(log: seq<Sample>, start: nat, limit: nat, now: int, i: nat)
    requires start <= |log| && |log| - start <= MAX_SAMPLES && Bytes(log[start..]) <= limit
    requires start <= i < Prune(log, start, limit, now)
    ensures log[i].at < now - HISTORY_WINDOW
    decreases |log| - start
  {
    if i != start {
      BytesSuffix(log[start..], 1);
      assert log[start..][1..] == log[start + 1..];
      PrunedByAge(log, start + 1, limit, now, i);
    }
  }

  lemma PruneKeepsServer(s: Server, now: int)
    requires ServerOk(s) && now >= s.clock
    ensures ServerOk(Pruned(s, now)) && s.start <= Pruned(s, now).start
  {
    var t := Pruned(s, now);
    BytesSuffix(s.log[s.start..], t.start - s.start);
    assert s.log[s.start..][t.start - s.start..] == s.log[t.start..];
  }

  lemma PruneKeepsSync(s: Server, c: Client, now: int)
    requires ServerOk(s) && InSync(s, c) && now >= s.clock
    ensures InSync(Pruned(s, now), c)
  {
    var t := Pruned(s, now);
    if c.generation == s.generation {
      forall i | Begin(s, c) <= i < End(s, c) && i < t.start ensures s.log[i].at < now {
        if i >= s.start {
          PrunedByAge(s.log, s.start, s.limit, now, i);
        }
      }
    }
  }

  lemma PrunedFits(log: seq<Sample>, start: nat, limit: nat, now: int)
    requires start <= |log|
    ensures Fits(log, Prune(log, start, limit, now), limit)
  {
    var r := Prune(log, start, limit, now);
    if r == |log| {
      assert log[r..] == [];
    }
  }

  lemma RecordKeepsServer(s: Server, now: int, data: string, encodes: bool)
    requires ServerOk(s) && MayRecord(s, now)
    ensures ServerOk(Record(s, now, data, encodes))
  {
    var sample := Sample(s.sequence + 1, now, data);
    Appended(s.log, s.sequence, s.clock, sample);
    if encodes {
      Stored(s, sample);
    }
  }

  lemma Stored(s: Server, sample: Sample)
    requires s.start <= |s.log| && Ascending(s.log + [sample]) && Stamped(s.log + [sample], s.sequence + 1, sample.at)
    ensures ServerOk(s.(sequence := s.sequence + 1, clock := sample.at, log := s.log + [sample],
                        start := Prune(s.log + [sample], s.start, s.limit, sample.at)))
  {
    PrunedFits(s.log + [sample], s.start, s.limit, sample.at);
  }

  lemma Appended(log: seq<Sample>, sequence: nat, clock: int, sample: Sample)
    requires Ascending(log) && Stamped(log, sequence, clock)
    requires sample.sequence == sequence + 1 && sample.at >= clock && (log != [] ==> log[|log| - 1].at < sample.at)
    ensures Ascending(log + [sample]) && Stamped(log + [sample], sequence + 1, sample.at)
    ensures Stamped(log, sequence + 1, sample.at) && Before(log, sample.at)
  {
    forall i | 0 <= i < |log| ensures log[i].sequence < sample.sequence && log[i].at < sample.at {
      assert i < |log| - 1 ==> log[i].at < log[|log| - 1].at;
    }
  }

  lemma {:induction false} UptoPrefix(log: seq<Sample>, sample: Sample, n: nat, since: nat)
    requires n <= |log|
    ensures Upto(log + [sample], n, since) == Upto(log, n, since)
  {
    if n != 0 && log[n - 1].sequence > since {
      UptoPrefix(log, sample, n - 1, since);
    }
  }

  /** A longer log does not move the stretch a client holds. */
  lemma StretchStays(s: Server, t: Server, c: Client, sample: Sample)
    requires t.log == s.log + [sample] && sample.sequence > c.cursor.sequence
    ensures End(t, c) == End(s, c) && Begin(t, c) == Begin(s, c)
    ensures Holds(s, c, Begin(s, c), End(s, c)) ==> Holds(t, c, Begin(t, c), End(t, c))
  {
    UptoPrefix(s.log, sample, |s.log|, c.cursor.sequence);
    if Holds(s, c, Begin(s, c), End(s, c)) {
      assert t.log[Begin(s, c)..End(s, c)] == s.log[Begin(s, c)..End(s, c)];
    }
  }

  lemma AppendKeepsSync(s: Server, t: Server, c: Client, sample: Sample)
    requires InSync(s, c) && c.generation == s.generation == t.generation && s.start <= t.start && s.sequence <= t.sequence
    requires t.log == s.log + [sample] && sample.sequence > c.cursor.sequence
    requires Before(s.log, t.clock)
    ensures InSync(t, c)
  {
    StretchStays(s, t, c, sample);
    forall i | Begin(t, c) <= i < End(t, c) ensures t.log[i].at < t.clock {
      assert t.log[i] == s.log[i];
    }
  }

  predicate Before(log: seq<Sample>, now: int) {
    forall i :: 0 <= i < |log| ==> log[i].at < now
  }

  lemma RecordKeepsSync(s: Server, c: Client, now: int, data: string, encodes: bool)
    requires ServerOk(s) && InSync(s, c) && MayRecord(s, now)
    ensures InSync(Record(s, now, data, encodes), c)
  {
    if encodes && c.generation == s.generation {
      Appended(s.log, s.sequence, s.clock, Sample(s.sequence + 1, now, data));
      AppendKeepsSync(s, Record(s, now, data, encodes), c, Sample(s.sequence + 1, now, data));
    } else {
      NothingRecorded(s, c, now, data, encodes);
    }
  }

  lemma NothingRecorded(s: Server, c: Client, now: int, data: string, encodes: bool)
    requires ServerOk(s) && InSync(s, c) && MayRecord(s, now) && (!encodes || c.generation != s.generation)
    ensures InSync(Record(s, now, data, encodes), c)
  {
  }

  // ---------------------------------------------------------------- what a response holds

  /** First entry that has to be sent: everything after a reset, else everything after the cursor. */
  function Due(s: Server, reset: bool, since: nat): int
    requires s.start <= |s.log|
  {
    if reset then s.start else Upto(s.log, |s.log|, since)
  }

  lemma {:induction false} NewestFits(s: Server, top: nat, reset: bool, since: nat, budget: int)
    requires ServerOk(s) && s.start <= top <= |s.log|
    requires reset || s.start <= Upto(s.log, |s.log|, since) <= top
    ensures var (first, short) := Newest(s, top, reset, since, budget);
            if short then first > Due(s, reset, since) else first == Due(s, reset, since)
  {
    if top != s.start {
      NewestStep(s, top, reset, since);
      var entry := s.log[top - 1];
      if (reset || entry.sequence > since) && |entry.data| + 1 <= budget {
        NewestFits(s, top - 1, reset, since, budget - |entry.data| - 1);
      }
    }
  }

  lemma NewestStep(s: Server, top: nat, reset: bool, since: nat)
    requires ServerOk(s) && s.start < top <= |s.log|
    requires reset || s.start <= Upto(s.log, |s.log|, since) <= top
    ensures !reset ==> (s.log[top - 1].sequence > since <==> Upto(s.log, |s.log|, since) <= top - 1)
  {
    if !reset {
      var n := Upto(s.log, |s.log|, since);
      if n == top {
        assert s.log[n - 1].sequence <= since;
      } else {
        assert s.log[top - 1].sequence > since;
      }
    }
  }

  /** Without a reset the cursor lies at or after the start of the history. */
  lemma NoResetMeansCovered(s: Server, cursor: Option<Cursor>)
    requires ServerOk(s) && !NeedsReset(s, cursor)
    ensures s.start <= Upto(s.log, |s.log|, cursor.value.sequence)
  {
    var n := Upto(s.log, |s.log|, cursor.value.sequence);
    assert n < |s.log| ==> cursor.value.sequence < s.log[n].sequence <= s.sequence;
  }

  /** What a response sends: `first` is the index of its oldest sample. */
  ghost predicate Sent(s: Server, r: Response, due: int, first: nat) {
    && s.start <= first <= |s.log| && r.samples == s.log[first..]
    && r.generation == s.generation && r.serverTime == s.clock
    && (if r.trimmed then first > due else first == due)
    && r.windowStart == TimeAt(s, if r.trimmed then first else s.start, r.serverTime)
  }

  /** The other fields of a response. */
  ghost predicate Labelled(s: Server, cursor: Option<Cursor>, r: Response)
    requires s.start <= |s.log|
  {
    && r.reset == NeedsReset(s, cursor)
    && r.cursor == Cursor(s.generation, s.sequence, s.inventory)
    && r.inventory == if r.reset || cursor.value.inventory != s.inventory then Some(s.inventory) else None
  }

  /** A response holds everything that is due, or, when trimmed, the newest part of it. */
  lemma AnswerFirst(s: Server, cursor: Option<Cursor>, now: int, budget: int,
                    encoded: seq<Sample> -> nat, limit: nat) returns (first: nat)
    requires ServerOk(s) && s.clock == now && Answer(s, cursor, now, budget, encoded, limit).Some?
    ensures var r := Answer(s, cursor, now, budget, encoded, limit).value;
            && Labelled(s, cursor, r)
            && (!r.reset ==> s.start <= Due(s, r.reset, Since(cursor)))
            && Sent(s, r, Due(s, r.reset, Since(cursor)), first)
  {
    var reset := NeedsReset(s, cursor);
    if !reset {
      NoResetMeansCovered(s, cursor);
    }
    NewestFits(s, |s.log|, reset, Since(cursor), budget);
    first := Shrink(s.log, Newest(s, |s.log|, reset, Since(cursor), budget).0, encoded, limit).value;
  }

  // ---------------------------------------------------------------- how much a response holds

  /** What the walk over the budget counts from entry `i` up to entry `n`: the size of each sample and its separator. */
  function Cost(log: seq<Sample>, i: nat, n: nat): nat
    requires i <= n <= |log|
  {
    if i == n then 0 else Cost(log, i, n - 1) + |log[n - 1].data| + 1
  }

  lemma {:induction false} CostOfMore(log: seq<Sample>, i: nat, j: nat, n: nat)
    requires i <= j <= n <= |log|
    ensures Cost(log, j, n) <= Cost(log, i, n)
    decreases n
  {
    if j < n {
      CostOfMore(log, i, j, n - 1);
    }
  }

  /** The walk from `top` stops as late as it can: what it takes fits the budget, and if it stopped short, one
      sample more would not have fitted. */
  predicate Greatest(s: Server, top: nat, reset: bool, since: nat, budget: int, first: nat, short: bool)
    requires s.start <= first <= top <= |s.log|
  {
    && (first < top ==> Cost(s.log, first, top) <= budget)
    && (short ==> first > s.start && Cost(s.log, first - 1, top) > budget)
    && (!short ==> first == s.start || (!reset && s.log[first - 1].sequence <= since))
  }

  lemma {:induction false} NewestIsGreatest(s: Server, top: nat, reset: bool, since: nat, budget: int)
    requires s.start <= top <= |s.log|
    ensures var (first, short) := Newest(s, top, reset, since, budget); Greatest(s, top, reset, since, budget, first, short)
    decreases top
  {
    if top != s.start && (reset || s.log[top - 1].sequence > since) && |s.log[top - 1].data| + 1 <= budget {
      var left := budget - |s.log[top - 1].data| - 1;
      NewestIsGreatest(s, top - 1, reset, since, left);
      var (first, short) := Newest(s, top - 1, reset, since, left);
      OneMoreTaken(s, top, reset, since, budget, first, short);
    }
  }

  lemma OneMoreTaken(s: Server, top: nat, reset: bool, since: nat, budget: int, first: nat, short: bool)
    requires s.start <= first < top <= |s.log| && |s.log[top - 1].data| + 1 <= budget
    requires Greatest(s, top - 1, reset, since, budget - |s.log[top - 1].data| - 1, first, short)
    ensures Greatest(s, top, reset, since, budget, first, short)
  {
  }

  /** Samples are dropped only while the encoding is over the limit, and giving up means that not even an empty
      response fits. */
  lemma {:induction false} ShrinkIsLeast(log: seq<Sample>, first: nat, encoded: seq<Sample> -> nat, limit: nat)
    requires first <= |log|
    ensures var r := Shrink(log, first, encoded, limit);
            && (r.Some? ==> encoded(log[r.value..]) <= limit && forall k :: first <= k < r.value ==> encoded(log[k..]) > limit)
            && (r.None? ==> forall k :: first <= k <= |log| ==> encoded(log[k..]) > limit)
    decreases |log| - first
  {
    if encoded(log[first..]) > limit && first < |log| {
      ShrinkIsLeast(log, first + 1, encoded, limit);
    }
  }

  /** All that is due fits the budget and the limit. */
  predicate Roomy(log: seq<Sample>, due: nat, budget: int, encoded: seq<Sample> -> nat, limit: nat)
    requires due <= |log|
  {
    (due == |log| || Cost(log, due, |log|) <= budget) && encoded(log[due..]) <= limit
  }

  /** What the walk alone takes of what is due. */
  ghost predicate Takes(s: Server, due: int, newest: nat, short: bool, budget: int)
    requires s.start <= |s.log|
  {
    && 0 <= due <= newest <= |s.log| && (short <==> newest != due)
    && (newest < |s.log| ==> Cost(s.log, newest, |s.log|) <= budget)
    && forall k :: due <= k < newest ==> Cost(s.log, k, |s.log|) > budget
  }

  lemma WalkTakes(s: Server, reset: bool, since: nat, budget: int)
    requires ServerOk(s) && (reset || s.start <= Upto(s.log, |s.log|, since))
    ensures var (newest, short) := Newest(s, |s.log|, reset, since, budget);
            Takes(s, Due(s, reset, since), newest, short, budget)
  {
    NewestFits(s, |s.log|, reset, since, budget);
    NewestIsGreatest(s, |s.log|, reset, since, budget);
    var (newest, short) := Newest(s, |s.log|, reset, since, budget);
    TakesIf(s, Due(s, reset, since), newest, short, budget);
  }

  lemma TakesIf(s: Server, due: int, newest: nat, short: bool, budget: int)
    requires s.start <= |s.log| && 0 <= due <= newest <= |s.log| && (short <==> newest != due)
    requires newest < |s.log| ==> Cost(s.log, newest, |s.log|) <= budget
    requires short ==> Cost(s.log, newest - 1, |s.log|) > budget
    ensures Takes(s, due, newest, short, budget)
  {
    forall k | due <= k < newest ensures Cost(s.log, k, |s.log|) > budget {
      CostOfMore(s.log, k, newest - 1, |s.log|);
    }
  }

  /** Of what is due, `first` starts the longest newest stretch that fits. */
  ghost predicate Longest(log: seq<Sample>, due: int, first: nat, budget: int, encoded: seq<Sample> -> nat, limit: nat) {
    && 0 <= due <= first <= |log| && encoded(log[first..]) <= limit && (first < |log| ==> Cost(log, first, |log|) <= budget)
    && forall k :: due <= k < first ==> Cost(log, k, |log|) > budget || encoded(log[k..]) > limit
  }

  lemma LongestStretch(s: Server, due: int, newest: nat, short: bool, budget: int, encoded: seq<Sample> -> nat, limit: nat)
    requires s.start <= |s.log| && Takes(s, due, newest, short, budget) && Shrink(s.log, newest, encoded, limit).Some?
    ensures var first := Shrink(s.log, newest, encoded, limit).value;
            Longest(s.log, due, first, budget, encoded, limit) && (short || first != newest <==> first != due)
  {
    ShrinkIsLeast(s.log, newest, encoded, limit);
    CostOfMore(s.log, newest, Shrink(s.log, newest, encoded, limit).value, |s.log|);
  }

  lemma LongestIfRoomy(log: seq<Sample>, due: int, first: nat, budget: int, encoded: seq<Sample> -> nat, limit: nat)
    requires Longest(log, due, first, budget, encoded, limit)
    ensures first == due <==> Roomy(log, due, budget, encoded, limit)
  {
  }

  /** What a response says of the stretch it sends. */
  ghost predicate Sends(s: Server, r: Response, due: int, budget: int, encoded: seq<Sample> -> nat, limit: nat) {
    && 0 <= due <= |s.log| && |r.samples| <= |s.log|
    && (r.trimmed <==> !Roomy(s.log, due, budget, encoded, limit))
    && r.samples == s.log[|s.log| - |r.samples|..]
    && Longest(s.log, due, |s.log| - |r.samples|, budget, encoded, limit)
  }

  /** A response is trimmed if and only if not all that is due fits; and it holds the longest newest stretch of
      it that does. */
  lemma TrimmedExactly(s: Server, cursor: Option<Cursor>, now: int, budget: int, encoded: seq<Sample> -> nat, limit: nat)
    requires ServerOk(s) && s.clock == now && Answer(s, cursor, now, budget, encoded, limit).Some?
    ensures var r := Answer(s, cursor, now, budget, encoded, limit).value;
            Sends(s, r, Due(s, r.reset, Since(cursor)), budget, encoded, limit)
  {
    var reset := NeedsReset(s, cursor);
    if !reset {
      NoResetMeansCovered(s, cursor);
    }
    WalkTakes(s, reset, Since(cursor), budget);
    var (newest, short) := Newest(s, |s.log|, reset, Since(cursor), budget);
    AnswerIs(s, cursor, now, budget, encoded, limit, newest, short);
    LongestStretch(s, Due(s, reset, Since(cursor)), newest, short, budget, encoded, limit);
    SendsIf(s, Answer(s, cursor, now, budget, encoded, limit).value, Due(s, reset, Since(cursor)), newest, short, budget, encoded, limit);
  }

  lemma SendsIf(s: Server, r: Response, due: int, newest: nat, short: bool, budget: int, encoded: seq<Sample> -> nat, limit: nat)
    requires newest <= |s.log| && Shrink(s.log, newest, encoded, limit).Some?
    requires var first := Shrink(s.log, newest, encoded, limit).value;
             && Longest(s.log, due, first, budget, encoded, limit) && (short || first != newest <==> first != due)
             && r.samples == s.log[first..] && r.trimmed == (short || first != newest)
    ensures Sends(s, r, due, budget, encoded, limit)
  {
    var first := Shrink(s.log, newest, encoded, limit).value;
    LongestIfRoomy(s.log, due, first, budget, encoded, limit);
    assert |s.log| - |r.samples| == first;
  }

  lemma AnswerIs(s: Server, cursor: Option<Cursor>, now: int, budget: int, encoded: seq<Sample> -> nat, limit: nat, newest: nat, short: bool)
    requires s.start <= newest <= |s.log| && Newest(s, |s.log|, NeedsReset(s, cursor), Since(cursor), budget) == (newest, short)
    requires Answer(s, cursor, now, budget, encoded, limit).Some?
    ensures Shrink(s.log, newest, encoded, limit).Some?
    ensures var r, first := Answer(s, cursor, now, budget, encoded, limit).value, Shrink(s.log, newest, encoded, limit).value;
            r.reset == NeedsReset(s, cursor) && r.samples == s.log[first..] && r.trimmed == (short || first != newest)
  {
  }

  /** No answer is given exactly if not even one without samples fits. */
  lemma RefusedOnlyIfNothingFits(s: Server, cursor: Option<Cursor>, now: int, budget: int, encoded: seq<Sample> -> nat, limit: nat)
    requires s.start <= |s.log| && Answer(s, cursor, now, budget, encoded, limit).None?
    ensures encoded([]) > limit
  {
    var newest := Newest(s, |s.log|, NeedsReset(s, cursor), Since(cursor), budget).0;
    ShrinkIsLeast(s.log, newest, encoded, limit);
    assert s.log[|s.log|..] == [];
  }

  // ---------------------------------------------------------------- when the dashboard starts over, and what is kept

  /** The stored history reaches back to a number. */
  predicate Reaches(s: Server, n: nat)
    requires s.start <= |s.log|
  {
    s.start < |s.log| && s.log[s.start].sequence <= n
  }

  /** A delta is answered exactly to a cursor of this generation after which nothing is missing: every number
      that was given out since belongs to the stored history. */
  lemma ResetExactly(s: Server, cursor: Option<Cursor>)
    requires ServerOk(s)
    ensures !NeedsReset(s, cursor) <==>
            && cursor.Some? && cursor.value.generation == s.generation && cursor.value.sequence <= s.sequence
            && forall n :: cursor.value.sequence < n <= s.sequence ==> Reaches(s, n)
  {
    if cursor.Some? && cursor.value.generation == s.generation && cursor.value.sequence < s.sequence {
      var next := cursor.value.sequence + 1;
      assert !NeedsReset(s, cursor) <==> Reaches(s, next);
    }
  }

  /** The history may start here: not too many samples, none too old, not too many bytes. */
  predicate Acceptable(log: seq<Sample>, start: nat, limit: nat, now: int)
    requires start <= |log|
  {
    start == |log| || (|log| - start <= 151 && now - log[start].at <= 300_000 && Bytes(log[start..]) <= limit)
  }

  /** Pruning drops no sample that could stay. */
  lemma {:induction false} PruneIsLeast(log: seq<Sample>, start: nat, limit: nat, now: int)
    requires start <= |log|
    ensures var r := Prune(log, start, limit, now);
            Acceptable(log, r, limit, now) && forall k :: start <= k < r ==> !Acceptable(log, k, limit, now)
    decreases |log| - start
  {
    if Overfull(log, start, limit, now) {
      PruneIsLeast(log, start + 1, limit, now);
    }
  }

  /** A tick takes the next number, and stores its sample under it with its time. */
  lemma RecordIsExact(s: Server, now: int, data: string, encodes: bool)
    requires s.start <= |s.log|
    ensures var t := Record(s, now, data, encodes);
            && t.sequence == s.sequence + 1 && t.clock == now
            && t.(sequence := 0, clock := 0, log := [], start := 0) == s.(sequence := 0, clock := 0, log := [], start := 0)
            && t.log == (if encodes then s.log + [Sample(s.sequence + 1, now, data)] else s.log)
            && (!encodes ==> t.start == s.start)
            && t.start <= |t.log|
  {
  }

  // ---------------------------------------------------------------- what the merge keeps

  lemma {:induction false} KeepAll(samples: seq<Sample>, cutoff: int)
    requires forall i :: 0 <= i < |samples| ==> samples[i].at >= cutoff
    ensures Keep(samples, cutoff) == samples
  {
    if samples != [] {
      KeepAll(samples[1..], cutoff);
    }
  }

  /** On ascending times the cut keeps exactly the part that is late enough. */
  lemma {:induction false} KeepTail(samples: seq<Sample>, cut: nat, cutoff: int)
    requires cut <= |samples|
    requires forall i :: 0 <= i < cut ==> samples[i].at < cutoff
    requires forall i :: cut <= i < |samples| ==> samples[i].at >= cutoff
    ensures Keep(samples, cutoff) == samples[cut..]
  {
    if cut == 0 {
      KeepAll(samples, cutoff);
    } else {
      KeepTail(samples[1..], cut - 1, cutoff);
      assert samples[1..][cut - 1..] == samples[cut..];
    }
  }

  /** A stretch reaching to the end of the log, cut between entries `k - 1` and `k`. */
  lemma KeepStretch(log: seq<Sample>, begin: nat, k: nat, cutoff: int)
    requires begin <= |log| && k <= |log|
    requires forall i :: begin <= i < k ==> log[i].at < cutoff
    requires forall i :: k <= i < |log| ==> log[i].at >= cutoff
    ensures Keep(log[begin..], cutoff) == log[if begin < k then k else begin..]
  {
    var cut := if begin < k then k - begin else 0;
    KeepTail(log[begin..], cut, cutoff);
    assert log[begin..][cut..] == log[begin + cut..];
  }

  lemma {:induction false} KeepAppend(a: seq<Sample>, b: seq<Sample>, cutoff: int)
    ensures Keep(a + b, cutoff) == Keep(a, cutoff) + Keep(b, cutoff)
  {
    if a == [] {
      assert a + b == b;
    } else {
      assert (a + b)[1..] == a[1..] + b;
      KeepAppend(a[1..], b, cutoff);
    }
  }

  lemma {:induction false} KeepNone(a: seq<Sample>, cutoff: int)
    requires forall i :: 0 <= i < |a| ==> a[i].at < cutoff
    ensures Keep(a, cutoff) == []
  {
    if a != [] {
      KeepNone(a[1..], cutoff);
    }
  }

  // ---------------------------------------------------------------- one poll

  /** Everything the server still holds from `k` on is late enough for a cutoff at `k`. */
  lemma LateEnough(s: Server, k: nat, now: int, cutoff: int)
    requires ServerOk(s) && s.start <= k <= |s.log|
    requires !Overfull(s.log, s.start, s.limit, now)
    requires cutoff <= TimeAt(s, k, now) || cutoff <= now - HISTORY_WINDOW
    ensures forall i :: k <= i < |s.log| ==> s.log[i].at >= cutoff
  {
    forall i | k <= i < |s.log| ensures s.log[i].at >= cutoff {
      assert s.log[i].at >= s.log[k].at;
      assert s.log[k].at >= s.log[s.start].at;
    }
  }

  /** A response that starts the client over leaves exactly what was sent. */
  lemma MergeAfterReset(s: Server, previous: Option<Client>, r: Response, first: nat)
    requires ServerOk(s) && !Overfull(s.log, s.start, s.limit, r.serverTime)
    requires StartsOver(previous, r) && s.start <= first <= |s.log| && r.samples == s.log[first..]
    requires r.windowStart == TimeAt(s, first, r.serverTime)
    ensures Merge(previous, r).samples == s.log[first..]
  {
    assert Offered(previous, r) == s.log[first..];
    LateEnough(s, first, r.serverTime, Cutoff(r));
    KeepAll(s.log[first..], Cutoff(r));
  }

  /** A trimmed delta pushes everything older out of the client. */
  lemma MergeTrimmed(s: Server, c: Client, r: Response, first: nat)
    requires ServerOk(s) && !Overfull(s.log, s.start, s.limit, r.serverTime) && s.clock == r.serverTime
    requires !StartsOver(Some(c), r) && Holds(s, c, Begin(s, c), End(s, c))
    requires s.start <= first && End(s, c) < first <= |s.log| && r.samples == s.log[first..]
    requires r.windowStart == TimeAt(s, first, r.serverTime)
    ensures Merge(Some(c), r).samples == s.log[first..]
  {
    var cutoff := Cutoff(r);
    LateEnough(s, first, r.serverTime, cutoff);
    forall i | 0 <= i < |c.samples| ensures c.samples[i].at < cutoff {
      var at := Begin(s, c) + i;
      assert c.samples[i] == s.log[at] && s.log[at].at < s.log[first - 1].at;
    }
    KeepNone(c.samples, cutoff);
    KeepAppend(c.samples, r.samples, cutoff);
    KeepAll(s.log[first..], cutoff);
  }

  lemma OfferedDelta(s: Server, c: Client, r: Response)
    requires !StartsOver(Some(c), r) && Holds(s, c, Begin(s, c), End(s, c)) && r.samples == s.log[End(s, c)..]
    ensures 0 <= Begin(s, c) <= |s.log| && Offered(Some(c), r) == s.log[Begin(s, c)..]
  {
  }

  /** Of the entries from `begin` on, the cutoff keeps those of the server's history. */
  lemma KeptDelta(s: Server, begin: nat, now: int, cutoff: int)
    requires ServerOk(s) && !Overfull(s.log, s.start, s.limit, now) && begin <= |s.log|
    requires cutoff <= TimeAt(s, s.start, now) || cutoff <= now - HISTORY_WINDOW
    requires cutoff >= TimeAt(s, s.start, now)
    requires forall i :: begin <= i < s.start && s.start == |s.log| ==> s.log[i].at < now
    ensures Keep(s.log[begin..], cutoff) == s.log[if begin < s.start then s.start else begin..]
  {
    LateEnough(s, s.start, now, cutoff);
    forall i | begin <= i < s.start ensures s.log[i].at < cutoff {
      if s.start < |s.log| {
        assert s.log[i].at < s.log[s.start].at;
      }
    }
    KeepStretch(s.log, begin, s.start, cutoff);
  }

  /** An untrimmed delta extends what the client holds and drops what the server dropped. */
  lemma MergeDelta(s: Server, c: Client, r: Response)
    requires ServerOk(s) && !Overfull(s.log, s.start, s.limit, r.serverTime) && s.clock == r.serverTime
    requires !StartsOver(Some(c), r) && InSync(s, c) && c.generation == s.generation
    requires s.start <= End(s, c) && r.samples == s.log[End(s, c)..]
    requires r.windowStart == TimeAt(s, s.start, r.serverTime)
    ensures Merge(Some(c), r).samples == s.log[if Begin(s, c) < s.start then s.start else Begin(s, c)..]
  {
    OfferedDelta(s, c, r);
    KeptDelta(s, Begin(s, c), r.serverTime, Cutoff(r));
  }

  lemma MergedOver(s: Server, previous: Option<Client>, r: Response, first: nat)
    requires ServerOk(s) && !Overfull(s.log, s.start, s.limit, s.clock)
    requires StartsOver(previous, r) && Sent(s, r, s.start, first)
    ensures Merge(previous, r).samples == s.log[first..]
    ensures Merge(previous, r).complete ==> first == s.start
  {
    MergeAfterReset(s, previous, r, first);
  }

  lemma MergedDelta(s: Server, c: Client, r: Response, first: nat) returns (x: nat)
    requires ServerOk(s) && !Overfull(s.log, s.start, s.limit, s.clock) && InSync(s, c) && c.generation == s.generation
    requires !StartsOver(Some(c), r) && s.start <= End(s, c) && Sent(s, r, End(s, c), first)
    ensures s.start <= x <= |s.log| && Merge(Some(c), r).samples == s.log[x..]
    ensures Merge(Some(c), r).complete ==> x == s.start
  {
    if r.trimmed {
      MergeTrimmed(s, c, r, first);
      x := first;
    } else {
      MergeDelta(s, c, r);
      x := if Begin(s, c) < s.start then s.start else Begin(s, c);
    }
  }

  lemma ResponseRefreshes(s: Server, previous: Option<Client>, r: Response, first: nat)
    requires ServerOk(s) && !Overfull(s.log, s.start, s.limit, s.clock)
    requires previous.Some? ==> InSync(s, previous.value)
    requires Labelled(s, ClientCursor(previous), r)
    requires !r.reset ==> s.start <= Due(s, r.reset, Since(ClientCursor(previous)))
    requires Sent(s, r, Due(s, r.reset, Since(ClientCursor(previous))), first)
    ensures Refreshed(s, Merge(previous, r))
  {
    if StartsOver(previous, r) {
      MergedOver(s, previous, r, first);
      RefreshedFrom(s, previous, r, first);
    } else {
      var x := MergedDelta(s, previous.value, r, first);
      RefreshedFrom(s, previous, r, x);
    }
  }

  lemma RefreshedFrom(s: Server, previous: Option<Client>, r: Response, x: nat)
    requires s.start <= x <= |s.log| && r.generation == s.generation
    requires previous.Some? ==>
      previous.value.inventory == previous.value.cursor.inventory && previous.value.generation == previous.value.cursor.generation
    requires Labelled(s, ClientCursor(previous), r)
    requires Merge(previous, r).samples == s.log[x..] && (Merge(previous, r).complete ==> x == s.start)
    ensures Refreshed(s, Merge(previous, r))
  {
    var c := Merge(previous, r);
    assert |c.samples| == |s.log| - x;
  }

  /** A delta protocol that refines the full history: every answered poll leaves the dashboard
      with the newest part of the server's history. It has the whole of it if all that was due fitted, now and
      in every answer since it started over. */
  lemma PollRefreshes(s: Server, previous: Option<Client>, now: int, budget: int,
                      encoded: seq<Sample> -> nat, limit: nat)
    requires ServerOk(s) && !Overfull(s.log, s.start, s.limit, now) && s.clock == now
    requires previous.Some? ==> InSync(s, previous.value)
    requires Answer(s, ClientCursor(previous), now, budget, encoded, limit).Some?
    ensures var r := Answer(s, ClientCursor(previous), now, budget, encoded, limit).value;
            && Refreshed(s, Merge(previous, r))
            && (Merge(previous, r).complete <==>
                  Roomy(s.log, Due(s, r.reset, Since(ClientCursor(previous))), budget, encoded, limit)
                  && (r.reset || previous.None? || previous.value.generation != s.generation || previous.value.complete))
  {
    TrimmedExactly(s, ClientCursor(previous), now, budget, encoded, limit);
    var r := Answer(s, ClientCursor(previous), now, budget, encoded, limit).value;
    var first := AnswerFirst(s, ClientCursor(previous), now, budget, encoded, limit);
    ResponseRefreshes(s, previous, r, first);
  }

  lemma RefreshedInSync(s: Server, c: Client)
    requires ServerOk(s) && Refreshed(s, c)
    ensures InSync(s, c)
  {
    assert End(s, c) == |s.log|;
  }

  lemma StepKeeps(sys: System, step: Step)
    requires Ok(sys) && Allowed(sys, step)
    ensures Ok(Next(sys, step))
    ensures step.Poll? ==>
              var s := Pruned(sys.server, step.now);
              Answer(s, ClientCursor(sys.client), step.now, step.budget, step.encoded, step.limit).Some? ==>
                Next(sys, step).client.Some? && Refreshed(Next(sys, step).server, Next(sys, step).client.value)
  {
    match step
    case Tick(now, data, encodes) =>
      RecordKeepsServer(sys.server, now, data, encodes);
      if sys.client.Some? {
        RecordKeepsSync(sys.server, sys.client.value, now, data, encodes);
      }
    case Poll(now, budget, encoded, limit) =>
      PollKeeps(sys, now, budget, encoded, limit);
    case Discover(inventory) =>
      if sys.client.Some? {
        var t := sys.server.(inventory := inventory);
        assert End(t, sys.client.value) == End(sys.server, sys.client.value);
      }
    case Restart(generation, clock) =>
    case Reload =>
  }

  lemma PollKeeps(sys: System, now: int, budget: int, encoded: seq<Sample> -> nat, limit: nat)
    requires Ok(sys) && now >= sys.server.clock
    ensures var next := Next(sys, Poll(now, budget, encoded, limit));
            && Ok(next)
            && (Answer(Pruned(sys.server, now), ClientCursor(sys.client), now, budget, encoded, limit).Some? ==>
                  next.client.Some? && Refreshed(next.server, next.client.value))
  {
    var s := Pruned(sys.server, now);
    PruneKeepsServer(sys.server, now);
    if sys.client.Some? {
      PruneKeepsSync(sys.server, sys.client.value, now);
    }
    var answer := Answer(s, ClientCursor(sys.client), now, budget, encoded, limit);
    if answer.Some? {
      PollRefreshes(s, sys.client, now, budget, encoded, limit);
      RefreshedInSync(s, Merge(sys.client, answer.value));
    }
  }

  function Boot(generation: string, limit: nat, clock: int): (sys: System)
    ensures Ok(sys)
  {
    System(Server(generation, 0, [], 0, limit, "", clock), None)
  }

  /** The states of a run; it stops at a step the environment does not allow. */
  function Run(sys: System, steps: seq<Step>): (r: System)
    requires Ok(sys)
    ensures Ok(r)
  {
    if steps == [] then sys
    else
      var before := Run(sys, steps[..|steps| - 1]);
      var step := steps[|steps| - 1];
      if Allowed(before, step) then StepKeeps(before, step); Next(before, step) else before
  }

  /** After any run, the next answered poll refreshes the dashboard; a new one gets the whole history if it fits. */
  lemma EveryPollRefreshes(generation: string, limit: nat, clock: int, steps: seq<Step>,
                           now: int, budget: int, encoded: seq<Sample> -> nat, size: nat)
    requires now >= Run(Boot(generation, limit, clock), steps).server.clock
    ensures var sys := Run(Boot(generation, limit, clock), steps);
            var next := Next(sys, Poll(now, budget, encoded, size));
            && ServerOk(next.server)
            && (Answer(Pruned(sys.server, now), ClientCursor(sys.client), now, budget, encoded, size).Some? ==>
                  && next.client.Some? && Refreshed(next.server, next.client.value)
                  && (sys.client.None? && Roomy(next.server.log, next.server.start, budget, encoded, size) ==>
                        next.client.value.samples == History(next.server)))
  {
    var sys := Run(Boot(generation, limit, clock), steps);
    PollKeeps(sys, now, budget, encoded, size);
    var s := Pruned(sys.server, now);
    if sys.client.None? && Answer(s, None, now, budget, encoded, size).Some? {
      PruneKeepsServer(sys.server, now);
      PollRefreshes(s, None, now, budget, encoded, size);
    }
  }
}
