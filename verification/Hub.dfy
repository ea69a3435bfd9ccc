/** The websocket hub: numbered events, a bounded replay buffer and live subscriptions. */
module Hub {

  const DEFAULT_CAPACITY: nat := 256
  const DEFAULT_BUFFER: nat := 32

  datatype Event = Event(topic: string, sequence: nat, payload: string)

  datatype Status = Live | Cancelled | Dropped

  /** One subscription: what Subscribe returned, what its channel holds, what its reader took. */
  datatype Subscription = Subscription(
    topic: string, since: nat, gap: bool, replay: seq<Event>,
    buffer: nat, queue: seq<Event>, received: seq<Event>, status: Status)
  {
    /** Everything handed over so far, in the order the reader sees it. */
    function Delivered(): seq<Event> {
      replay + received + queue
    }
  }

  /** Hub fields together with `log`, the list of everything ever published. */
  datatype State = State(capacity: nat, sequence: nat, replay: seq<Event>, log: seq<Event>,
                         nextId: nat, subs: map<nat, Subscription>)

  // ---------------------------------------------------------------- steps

  function New(capacity: int): State {
    State(if capacity <= 0 then DEFAULT_CAPACITY else capacity, 0, [], [], 0, map[])
  }

  function Latest(events: seq<Event>, n: nat): seq<Event> {
    if |events| > n then events[|events| - n..] else events
  }

  /** A full channel drops its subscriber instead of blocking the publisher. */
  function Offer(s: Subscription, e: Event): Subscription {
    if s.status != Live || s.topic != e.topic then s
    else if |s.queue| < s.buffer then s.(queue := s.queue + [e])
    else s.(status := Dropped)
  }

  function Publish(h: State, topic: string, payload: string): State {
    var e := Event(topic, h.sequence + 1, payload);
    h.(sequence := h.sequence + 1,
       replay := Latest(h.replay + [e], h.capacity),
       log := h.log + [e],
       subs := map id | id in h.subs :: Offer(h.subs[id], e))
  }

  /** The events of a topic numbered above `since`. */
  function Select(events: seq<Event>, topic: string, since: nat): seq<Event> {
    if events == [] then []
    else
      var e := events[|events| - 1];
      Select(events[..|events| - 1], topic, since)
      + if e.topic == topic && e.sequence > since then [e] else []
  }

  function GapAt(h: State, since: nat): bool {
    since > h.sequence || (h.replay != [] && since < h.replay[0].sequence - 1)
  }

  function Subscribe(h: State, topic: string, since: nat, buffer: int): State {
    var s := Subscription(topic, since, GapAt(h, since), Select(h.replay, topic, since),
                          if buffer <= 0 then DEFAULT_BUFFER else buffer, [], [], Live);
    h.(nextId := h.nextId + 1, subs := h.subs[h.nextId + 1 := s])
  }

  function Cancel(h: State, id: nat): State {
    if id in h.subs && h.subs[id].status == Live
    then h.(subs := h.subs[id := h.subs[id].(status := Cancelled)])
    else h
  }

  /** The reader takes one event; a closed channel still hands out what it buffered. */
  function Receive(h: State, id: nat): State {
    if id in h.subs && h.subs[id].queue != []
    then
      var s := h.subs[id];
      h.(subs := h.subs[id := s.(queue := s.queue[1..], received := s.received + [s.queue[0]])])
    else h
  }

  datatype Step =
    | DoPublish(topic: string, payload: string)
    | DoSubscribe(topic: string, since: nat, buffer: int)
    | DoCancel(id: nat)
    | DoReceive(id: nat)

  function Apply(h: State, step: Step): State {
    match step
    case DoPublish(topic, payload) => Publish(h, topic, payload)
    case DoSubscribe(topic, since, buffer) => Subscribe(h, topic, since, buffer)
    case DoCancel(id) => Cancel(h, id)
    case DoReceive(id) => Receive(h, id)
  }

  function Run(h: State, steps: seq<Step>): State {
    if steps == [] then h else Apply(Run(h, steps[..|steps| - 1]), steps[|steps| - 1])
  }

  // ---------------------------------------------------------------- what every step keeps

  predicate Numbered(log: seq<Event>) {
    forall i :: 0 <= i < |log| ==> log[i].sequence == i + 1
  }

  /** A subscription without a gap has been handed exactly the matching events: all of
      them while it is live, an unbroken beginning of them once it was cancelled or dropped. */
  ghost predicate Faithful(log: seq<Event>, s: Subscription) {
    && s.since <= |log|
    && (s.status == Live ==> s.Delivered() == Select(log, s.topic, s.since))
    && s.Delivered() <= Select(log, s.topic, s.since)
  }

  ghost predicate Consistent(h: State) {
    && h.capacity > 0
    && h.sequence == |h.log|
    && Numbered(h.log)
    && h.replay == Latest(h.log, h.capacity)
    && (forall id :: id in h.subs ==> id <= h.nextId)
    && forall id :: id in h.subs && !h.subs[id].gap ==> Faithful(h.log, h.subs[id])
  }

  lemma {:induction false} SelectAppend(a: seq<Event>, b: seq<Event>, topic: string, since: nat)
    ensures Select(a + b, topic, since) == Select(a, topic, since) + Select(b, topic, since)
  {
    if b == [] {
      assert a + b == a;
    } else {
      var init := b[..|b| - 1];
      assert (a + b)[..|a + b| - 1] == a + init;
      SelectAppend(a, init, topic, since);
    }
  }

  lemma {:induction false} SelectNothing(a: seq<Event>, topic: string, since: nat)
    requires forall i :: 0 <= i < |a| ==> a[i].sequence <= since
    ensures Select(a, topic, since) == []
  {
    if a != [] {
      SelectNothing(a[..|a| - 1], topic, since);
    }
  }

  /** Without a gap the replay buffer alone yields every matching event of the whole log. */
  lemma ReplaySuffices(h: State, topic: string, since: nat)
    requires Consistent(h) && !GapAt(h, since)
    ensures Select(h.replay, topic, since) == Select(h.log, topic, since)
  {
    var cut := |h.log| - |h.replay|;
    var gone, kept := h.log[..cut], h.log[cut..];
    assert h.log == gone + kept && h.replay == kept;
    SelectAppend(gone, kept, topic, since);
    forall i | 0 <= i < |gone| ensures gone[i].sequence <= since {
      assert h.replay[0] == h.log[cut];
    }
    SelectNothing(gone, topic, since);
  }

  /** The gap flag is exact: it is clear if and only if the requested position exists and
      every event published after it is still in the replay buffer. */
  lemma GapIsExact(h: State, since: nat)
    requires Consistent(h)
    ensures !GapAt(h, since) <==>
            since <= |h.log| && forall i :: since <= i < |h.log| ==> h.log[i] in h.replay
  {
    var cut := |h.log| - |h.replay|;
    assert h.replay == h.log[cut..];
    if !GapAt(h, since) {
      forall i | since <= i < |h.log| ensures h.log[i] in h.replay {
        assert h.replay[0] == h.log[cut];
        assert h.log[i] == h.replay[i - cut];
      }
    } else if since <= |h.log| {
      assert h.replay[0] == h.log[cut];
      assert h.log[cut - 1] !in h.replay;
    }
  }

  lemma LatestAppend(log: seq<Event>, e: Event, n: nat)
    requires n > 0
    ensures Latest(Latest(log, n) + [e], n) == Latest(log + [e], n)
  {
  }

  lemma OfferIsFaithful(log: seq<Event>, s: Subscription, e: Event)
    requires Faithful(log, s) && e.sequence == |log| + 1
    ensures Faithful(log + [e], Offer(s, e))
  {
    SelectAppend(log, [e], s.topic, s.since);
    assert [e][..0] == [];
    var t := Offer(s, e);
    if s.status == Live && s.topic == e.topic && |s.queue| < s.buffer {
      assert t.Delivered() == s.Delivered() + [e];
    }
  }

  lemma PublishKeeps(h: State, topic: string, payload: string)
    requires Consistent(h)
    ensures Consistent(Publish(h, topic, payload))
  {
    var e, next := Event(topic, h.sequence + 1, payload), Publish(h, topic, payload);
    NumberedAppend(h.log, e);
    assert next.replay == Latest(next.log, next.capacity) by { LatestAppend(h.log, e, h.capacity); }
    OffersAreFaithful(h, e);
  }

  lemma OffersAreFaithful(h: State, e: Event)
    requires Consistent(h) && e.sequence == |h.log| + 1
    ensures forall id :: id in h.subs && !h.subs[id].gap ==> Faithful(h.log + [e], Offer(h.subs[id], e))
  {
    forall id | id in h.subs && !h.subs[id].gap ensures Faithful(h.log + [e], Offer(h.subs[id], e)) {
      OfferIsFaithful(h.log, h.subs[id], e);
    }
  }

  lemma NumberedAppend(log: seq<Event>, e: Event)
    requires Numbered(log) && e.sequence == |log| + 1
    ensures Numbered(log + [e])
  {
  }

  lemma SubscribeKeeps(h: State, topic: string, since: nat, buffer: int)
    requires Consistent(h)
    ensures Consistent(Subscribe(h, topic, since, buffer))
  {
    if !GapAt(h, since) {
      ReplaySuffices(h, topic, since);
    }
  }

  lemma ReceiveKeeps(h: State, id: nat)
    requires Consistent(h)
    ensures Consistent(Receive(h, id))
  {
    if id in h.subs && h.subs[id].queue != [] {
      var s := h.subs[id];
      var t := Receive(h, id).subs[id];
      assert s.queue == [s.queue[0]] + s.queue[1..];
      assert t.Delivered() == s.Delivered();
    }
  }

  /** In every run, the replay buffer is the newest part of a contiguously numbered log and
      every subscription created without a gap is served exactly, with no loss or duplicate. */
  lemma {:induction false} EveryRunIsConsistent(capacity: int, steps: seq<Step>)
    ensures Consistent(Run(New(capacity), steps))
  {
    if steps != [] {
      var before := Run(New(capacity), steps[..|steps| - 1]);
      EveryRunIsConsistent(capacity, steps[..|steps| - 1]);
      match steps[|steps| - 1]
      case DoPublish(topic, payload) => PublishKeeps(before, topic, payload);
      case DoSubscribe(topic, since, buffer) => SubscribeKeeps(before, topic, since, buffer);
      case DoCancel(id) =>
      case DoReceive(id) => ReceiveKeeps(before, id);
    }
  }

  /** Once cancelled or dropped, a subscription is offered nothing more. */
  lemma {:induction false} EndedStaysEnded(h: State, steps: seq<Step>, id: nat)
    requires id in h.subs && id <= h.nextId && h.subs[id].status != Live
    ensures id in Run(h, steps).subs && h.nextId <= Run(h, steps).nextId
    ensures Run(h, steps).subs[id].status == h.subs[id].status
    ensures Run(h, steps).subs[id].Delivered() == h.subs[id].Delivered()
  {
    if steps != [] {
      EndedStaysEnded(h, steps[..|steps| - 1], id);
      EndedStep(Run(h, steps[..|steps| - 1]), steps[|steps| - 1], id);
    }
  }

  lemma EndedStep(h: State, step: Step, id: nat)
    requires id in h.subs && id <= h.nextId && h.subs[id].status != Live
    ensures var next := Apply(h, step);
            && id in next.subs && h.nextId <= next.nextId
            && next.subs[id].status == h.subs[id].status && next.subs[id].Delivered() == h.subs[id].Delivered()
  {
    if step == DoReceive(id) && h.subs[id].queue != [] {
      var s := h.subs[id];
      assert s.queue == [s.queue[0]] + s.queue[1..];
    }
  }

  // ---------------------------------------------------------------- what is served, and to whom

  lemma {:induction false} SelectedEvents(events: seq<Event>, topic: string, since: nat, e: Event)
    ensures e in Select(events, topic, since) <==> e in events && e.topic == topic && e.sequence > since
  {
    if events != [] {
      SelectedEvents(events[..|events| - 1], topic, since, e);
      assert events == events[..|events| - 1] + [events[|events| - 1]];
    }
  }

  lemma {:induction false} SelectedInOrder(events: seq<Event>, topic: string, since: nat)
    requires forall i, j :: 0 <= i < j < |events| ==> events[i].sequence < events[j].sequence
    ensures var r := Select(events, topic, since); forall i, j :: 0 <= i < j < |r| ==> r[i].sequence < r[j].sequence
  {
    if events != [] {
      var init, last := events[..|events| - 1], events[|events| - 1];
      SelectedInOrder(init, topic, since);
      var before := Select(init, topic, since);
      forall i | 0 <= i < |before| ensures before[i].sequence < last.sequence {
        SelectedEvents(init, topic, since, before[i]);
        var k :| 0 <= k < |init| && init[k] == before[i];
        assert events[k].sequence < events[|events| - 1].sequence;
      }
    }
  }

  /** In every run the buffer holds the newest events, as many as it has room for. */
  lemma BufferIsFull(capacity: int, steps: seq<Step>)
    ensures var h := Run(New(capacity), steps);
            && |h.replay| == (if |h.log| < h.capacity then |h.log| else h.capacity)
            && h.replay == h.log[|h.log| - |h.replay|..]
    ensures Run(New(capacity), steps).capacity == if capacity <= 0 then 256 else capacity
  {
    EveryRunIsConsistent(capacity, steps);
    CapacityStays(New(capacity), steps);
  }

  lemma {:induction false} CapacityStays(h: State, steps: seq<Step>)
    ensures Run(h, steps).capacity == h.capacity
  {
    if steps != [] {
      CapacityStays(h, steps[..|steps| - 1]);
    }
  }

  /** In every run a live subscription without a gap has been handed, in order and once each, exactly the
      published events of its topic after its position. */
  lemma ServedExactly(capacity: int, steps: seq<Step>, id: nat, e: Event)
    requires var h := Run(New(capacity), steps); id in h.subs && !h.subs[id].gap && h.subs[id].status == Live
    ensures var h := Run(New(capacity), steps);
            var served := h.subs[id].Delivered();
            && (e in served <==> e in h.log && e.topic == h.subs[id].topic && e.sequence > h.subs[id].since)
            && forall i, j :: 0 <= i < j < |served| ==> served[i].sequence < served[j].sequence
  {
    EveryRunIsConsistent(capacity, steps);
    var h := Run(New(capacity), steps);
    SelectedEvents(h.log, h.subs[id].topic, h.subs[id].since, e);
    SelectedInOrder(h.log, h.subs[id].topic, h.subs[id].since);
  }

  /** Publishing appends one numbered event and is offered to the live subscribers of its topic: one with room
      gets it, one without is dropped and loses nothing it has, and nobody else is touched. */
  lemma PublishIsExact(h: State, topic: string, payload: string, id: nat)
    requires id in h.subs
    ensures var t, s := Apply(h, DoPublish(topic, payload)), h.subs[id];
            && t.sequence == h.sequence + 1 && t.log == h.log + [Event(topic, t.sequence, payload)]
            && t.nextId == h.nextId && t.subs.Keys == h.subs.Keys
            && t.subs[id] ==
               if s.status != Live || s.topic != topic then s
               else if |s.queue| < s.buffer then s.(queue := s.queue + [Event(topic, t.sequence, payload)])
               else s.(status := Dropped)
  {
  }

  /** A subscription starts live and empty under a new number, with what was asked for; a missing size means room for 32. */
  lemma SubscribeIsExact(h: State, topic: string, since: nat, buffer: int, x: nat)
    ensures var t := Apply(h, DoSubscribe(topic, since, buffer));
            && t.nextId == h.nextId + 1 && t == h.(nextId := t.nextId, subs := t.subs)
            && (x in t.subs <==> x in h.subs || x == t.nextId) && (x in h.subs && x != t.nextId ==> t.subs[x] == h.subs[x])
            && var s := t.subs[t.nextId];
            && s.topic == topic && s.since == since && s.status == Live && s.queue == [] && s.received == []
            && s.buffer == if buffer <= 0 then 32 else buffer
  {
  }

  /** Cancelling ends a live subscription and keeps what its channel holds; a reader takes the oldest event
      there is, from an ended subscription too. */
  lemma ReadersAreExact(h: State, id: nat)
    ensures var t := Apply(h, DoCancel(id));
            && t.subs.Keys == h.subs.Keys
            && (id in h.subs ==> t.subs[id] == if h.subs[id].status == Live then h.subs[id].(status := Cancelled) else h.subs[id])
    ensures var t := Apply(h, DoReceive(id));
            && t.subs.Keys == h.subs.Keys
            && (id in h.subs && h.subs[id].queue != [] ==>
                  h.subs[id].queue == [t.subs[id].received[|h.subs[id].received|]] + t.subs[id].queue
                  && t.subs[id].received[..|h.subs[id].received|] == h.subs[id].received
                  && |t.subs[id].received| == |h.subs[id].received| + 1)
    ensures forall x :: x in h.subs && x != id ==> Apply(h, DoCancel(id)).subs[x] == h.subs[x] && Apply(h, DoReceive(id)).subs[x] == h.subs[x]
  {
  }

  // ---------------------------------------------------------------- the hub object

  class Broker {
    const capacity: nat
    var sequence: nat
    var replay: seq<Event>
    var nextId: nat
    var subs: map<nat, Subscription>
    ghost var log: seq<Event>

    ghost function View(): State
      reads this
    {
      State(capacity, sequence, replay, log, nextId, subs)
    }

    constructor (capacity: int)
      ensures View() == New(capacity)
    {
      this.capacity := if capacity <= 0 then DEFAULT_CAPACITY else capacity;
      sequence, replay, nextId, subs, log := 0, [], 0, map[], [];
    }

    method Announce(topic: string, payload: string)
      modifies this
      ensures View() == Publish(old(View()), topic, payload)
    {
      sequence := sequence + 1;
      var event := Event(topic, sequence, payload);
      replay := replay + [event];
      if |replay| > capacity {
        replay := replay[|replay| - capacity..];
      }
      log := log + [event];
      Fan(event);
    }

    /** Offers one event to every subscriber, dropping those whose channel is full. */
    method Fan(event: Event)
      modifies `subs
      ensures subs == map id | id in old(subs) :: Offer(old(subs)[id], event)
    {
      var rest := subs.Keys;
      ghost var before := subs;
      while rest != {}
        invariant subs.Keys == before.Keys && rest <= before.Keys
        invariant forall id :: id in before ==>
                    subs[id] == if id in rest then before[id] else Offer(before[id], event)
        decreases |rest|
      {
        var id :| id in rest;
        rest := rest - {id};
        var s := subs[id];
        if s.status == Live && s.topic == event.topic {
          if |s.queue| < s.buffer {
            subs := subs[id := s.(queue := s.queue + [event])];
          } else {
            subs := subs[id := s.(status := Dropped)];
          }
        }
      }
    }

    method Join(topic: string, since: nat, buffer: int) returns (id: nat)
      modifies this
      ensures View() == Subscribe(old(View()), topic, since, buffer) && id == nextId
    {
      nextId := nextId + 1;
      id := nextId;
      var gap := since > sequence || (|replay| > 0 && since < replay[0].sequence - 1);
      var missed: seq<Event> := [];
      for i := 0 to |replay|
        invariant missed == Select(replay[..i], topic, since)
      {
        assert replay[..i + 1][..i] == replay[..i];
        if replay[i].topic == topic && replay[i].sequence > since {
          missed := missed + [replay[i]];
        }
      }
      assert replay[..|replay|] == replay;
      subs := subs[id := Subscription(topic, since, gap, missed, if buffer <= 0 then DEFAULT_BUFFER else buffer, [], [], Live)];
    }

    method Leave(id: nat)
      modifies `subs
      ensures View() == Cancel(old(View()), id)
    {
      if id in subs && subs[id].status == Live {
        subs := subs[id := subs[id].(status := Cancelled)];
      }
    }
  }
}
