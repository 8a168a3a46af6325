/** The in-process hub that hands message events to the open connections. */
module Hub {
  const CAPACITY := 64

  datatype Event = Event(kind: string, machine: int, message: string)

  /** A channel: what waits in it, what its reader took out, and whether it is closed. */
  datatype Channel = Channel(buffer: seq<Event>, received: seq<Event>, closed: bool)

  /** The subscriber map, and every channel that was ever made. */
  datatype State = State(subscribers: map<nat, int>, channels: map<nat, Channel>)

  datatype Operation = Subscribe(machine: int) | Unsubscribe(ch: nat) | Publish(event: Event) | Receive(ch: nat)

  const START := State(map[], map[])

  /** Non-blocking: a full channel is not waited for. */
  function Offered(c: Channel, event: Event): Channel {
    if |c.buffer| < CAPACITY then c.(buffer := c.buffer + [event]) else c.(closed := true)
  }

  predicate Listens(s: State, ch: nat, machine: int) {
    ch in s.subscribers && s.subscribers[ch] == machine
  }

  /** Every subscriber of the machine is offered the event; those that are full go. */
  function Published(s: State, event: Event): State {
    State(
      map ch | ch in s.subscribers &&
        !(s.subscribers[ch] == event.machine && ch in s.channels && |s.channels[ch].buffer| >= CAPACITY) :: s.subscribers[ch],
      map ch | ch in s.channels ::
        if Listens(s, ch, event.machine) then Offered(s.channels[ch], event) else s.channels[ch])
  }

  predicate Enabled(s: State, op: Operation) {
    match op
    case Receive(ch) => ch in s.channels && s.channels[ch].buffer != []
    case _ => true
  }

  function Step(s: State, op: Operation): State
    requires Enabled(s, op)
  {
    match op
    case Subscribe(machine) =>
      var ch := |s.channels|;
      State(s.subscribers[ch := machine], s.channels[ch := Channel([], [], false)])
    case Unsubscribe(ch) =>
      if ch in s.subscribers && ch in s.channels
      then State(s.subscribers - {ch}, s.channels[ch := s.channels[ch].(closed := true)])
      else s
    case Publish(event) => Published(s, event)
    case Receive(ch) =>
      var c := s.channels[ch];
      s.(channels := s.channels[ch := c.(buffer := c.buffer[1..], received := c.received + [c.buffer[0]])])
  }

  // ----- the hub itself

  /** The subscribers are exactly the open channels. */
  ghost predicate Consistent(s: State) {
    && (forall ch :: ch in s.subscribers <==> ch in s.channels && !s.channels[ch].closed)
    && (forall ch :: ch in s.channels <==> 0 <= ch < |s.channels|)
  }

  lemma SameChannels(s: State, t: State)
    requires Consistent(s) && t.channels.Keys == s.channels.Keys
    ensures forall ch :: ch in t.channels <==> 0 <= ch < |t.channels|
  {
    assert |t.channels.Keys| == |s.channels.Keys|;
  }

  lemma SubscribeConsistent(s: State, machine: int)
    requires Consistent(s)
    ensures Consistent(Step(s, Subscribe(machine)))
  {
    var ch := |s.channels|;
    assert ch !in s.channels;
    assert |s.channels[ch := Channel([], [], false)]| == ch + 1;
  }

  lemma PublishConsistent(s: State, event: Event)
    requires Consistent(s)
    ensures Consistent(Published(s, event))
  {
    assert Published(s, event).channels.Keys == s.channels.Keys;
    SameChannels(s, Published(s, event));
  }

  lemma ConsistentStep(s: State, op: Operation)
    requires Consistent(s) && Enabled(s, op)
    ensures Consistent(Step(s, op))
  {
    match op
    case Subscribe(machine) => SubscribeConsistent(s, machine);
    case Publish(event) => PublishConsistent(s, event);
    case Unsubscribe(ch) => SameChannels(s, Step(s, op));
    case Receive(ch) => SameChannels(s, Step(s, op));
  }

  class MessageHub {
    var subscribers: map<nat, int>
    var channels: map<nat, Channel>

    ghost predicate Valid()
      reads this
    {
      Consistent(Snapshot())
    }

    function Snapshot(): State
      reads this
    {
      State(subscribers, channels)
    }

    constructor ()
      ensures Valid() && Snapshot() == START
    {
      subscribers, channels := map[], map[];
    }

    /** Sending on a closed channel would panic. */
    method Send(ch: nat, event: Event)
      requires ch in channels && !channels[ch].closed && |channels[ch].buffer| < CAPACITY
      modifies this`channels
      ensures channels == old(channels)[ch := Offered(old(channels)[ch], event)]
    {
      var c := channels[ch];
      channels := channels[ch := c.(buffer := c.buffer + [event])];
    }

    /** Closing a channel twice would panic. */
    method Close(ch: nat)
      requires ch in channels && !channels[ch].closed
      modifies this`channels
      ensures channels == old(channels)[ch := old(channels)[ch].(closed := true)]
    {
      channels := channels[ch := channels[ch].(closed := true)];
    }

    method SubscribeMessages(machine: int) returns (ch: nat)
      requires Valid()
      modifies this
      ensures Valid() && ch == |old(channels)| && Snapshot() == Step(old(Snapshot()), Subscribe(machine))
      ensures channels == old(channels)[ch := Channel([], [], false)] && subscribers == old(subscribers)[ch := machine]
    {
      ConsistentStep(Snapshot(), Subscribe(machine));
      ch := |channels|;
      channels := channels[ch := Channel([], [], false)];
      subscribers := subscribers[ch := machine];
    }

    method UnsubscribeMessages(ch: nat)
      requires Valid()
      modifies this
      ensures Valid() && Snapshot() == Step(old(Snapshot()), Unsubscribe(ch))
      ensures subscribers == old(subscribers) - {ch}
      ensures ch in channels ==> channels == old(channels)[ch := old(channels)[ch].(closed := true)]
    {
      ConsistentStep(Snapshot(), Unsubscribe(ch));
      if ch in subscribers {
        subscribers := subscribers - {ch};
        Close(ch);
      }
    }

    /** The body of the loop: one subscriber. */
    method Offer(ch: nat, event: Event)
      requires ch in subscribers && ch in channels && !channels[ch].closed
      modifies this
      ensures Snapshot() == OfferedTo(old(Snapshot()), ch, event)
    {
      if subscribers[ch] == event.machine {
        if |channels[ch].buffer| < CAPACITY {
          Send(ch, event);
        } else {
          subscribers := subscribers - {ch};
          Close(ch);
        }
      }
    }

    /** One more subscriber, whichever comes next. */
    method OfferNext(ghost before: State, rest: set<nat>, ghost done: set<nat>, event: Event) returns (left: set<nat>)
      requires Consistent(before) && rest != {} && done !! rest && done + rest == before.subscribers.Keys
      requires PartlyPublished(before, Snapshot(), event, done)
      modifies this
      ensures left < rest
      ensures PartlyPublished(before, Snapshot(), event, before.subscribers.Keys - left)
    {
      var ch :| ch in rest;
      OneMore(before, Snapshot(), event, done, ch);
      left := rest - {ch};
      assert before.subscribers.Keys - left == done + {ch};
      Offer(ch, event);
    }

    /** The loop over the subscriber map, in any order. */
    method PublishMessage(event: Event)
      requires Valid()
      modifies this
      ensures Valid() && Snapshot() == Step(old(Snapshot()), Publish(event))
    {
      ghost var before := Snapshot();
      var rest := subscribers.Keys;
      ghost var done: set<nat> := {};
      NonePublished(before, event);
      while rest != {}
        invariant done !! rest && done + rest == before.subscribers.Keys
        invariant PartlyPublished(before, Snapshot(), event, done)
        decreases rest
      {
        rest := OfferNext(before, rest, done, event);
        done := before.subscribers.Keys - rest;
      }
      AllPublished(before, Snapshot(), event);
      ConsistentStep(before, Publish(event));
    }

    method ReceiveMessage(ch: nat) returns (event: Event)
      requires Valid() && ch in channels && channels[ch].buffer != []
      modifies this
      ensures Valid() && event == old(channels)[ch].buffer[0] && Snapshot() == Step(old(Snapshot()), Receive(ch))
      ensures channels[ch].buffer == old(channels)[ch].buffer[1..] && channels[ch].received == old(channels)[ch].received + [event]
      ensures channels - {ch} == old(channels) - {ch} && subscribers == old(subscribers)
    {
      ConsistentStep(Snapshot(), Receive(ch));
      var c := channels[ch];
      event := c.buffer[0];
      channels := channels[ch := c.(buffer := c.buffer[1..], received := c.received + [event])];
    }
  }

  /** The channels in `done` have been offered the event, the others not yet. */
  ghost predicate PartlyPublished(before: State, now: State, event: Event, done: set<nat>) {
    var after := Published(before, event);
    && now.channels.Keys == before.channels.Keys
    && (forall ch :: ch in now.channels ==> now.channels[ch] == if ch in done then after.channels[ch] else before.channels[ch])
    && (forall ch :: ch in now.subscribers <==> ch in if ch in done then after.subscribers else before.subscribers)
    && (forall ch :: ch in now.subscribers ==> ch in before.subscribers && now.subscribers[ch] == before.subscribers[ch])
  }

  function OfferedTo(s: State, ch: nat, event: Event): State
    requires ch in s.subscribers && ch in s.channels
  {
    if s.subscribers[ch] != event.machine then s
    else State(
      if |s.channels[ch].buffer| < CAPACITY then s.subscribers else s.subscribers - {ch},
      s.channels[ch := Offered(s.channels[ch], event)])
  }

  lemma NonePublished(before: State, event: Event)
    ensures PartlyPublished(before, before, event, {})
  {
  }

  lemma OneMore(before: State, now: State, event: Event, done: set<nat>, ch: nat)
    requires Consistent(before) && PartlyPublished(before, now, event, done)
    requires ch in before.subscribers && ch !in done
    ensures ch in now.subscribers && ch in now.channels && !now.channels[ch].closed
    ensures PartlyPublished(before, OfferedTo(now, ch, event), event, done + {ch})
  {
  }

  lemma AllPublished(before: State, now: State, event: Event)
    requires PartlyPublished(before, now, event, before.subscribers.Keys)
    ensures now == Published(before, event)
  {
  }

  // ----- what a subscriber gets, over whole runs

  /** For each channel, its machine and the events published there since it was made. */
  datatype History = History(machines: map<nat, int>, logs: map<nat, seq<Event>>)

  function Record(h: History, s: State, op: Operation): History {
    match op
    case Subscribe(machine) => History(h.machines[|s.channels| := machine], h.logs[|s.channels| := []])
    case Publish(event) =>
      h.(logs := map ch | ch in h.logs ::
        if ch in h.machines && h.machines[ch] == event.machine then h.logs[ch] + [event] else h.logs[ch])
    case _ => h
  }

  /** An open channel holds everything published since it was made, a closed one the
      events before some point; nothing is lost in the middle, doubled or reordered. */
  ghost predicate Faithful(c: Channel, log: seq<Event>) {
    && |c.buffer| <= 64
    && c.received + c.buffer <= log
    && (!c.closed ==> c.received + c.buffer == log)
  }

  ghost predicate Inv(s: State, h: History) {
    && Consistent(s)
    && h.logs.Keys == s.channels.Keys && h.machines.Keys == s.channels.Keys
    && (forall ch :: ch in s.subscribers ==> ch in h.machines && s.subscribers[ch] == h.machines[ch])
    && (forall ch :: ch in s.channels ==> ch in h.logs && Faithful(s.channels[ch], h.logs[ch]))
  }

  lemma ReceiveFaithful(c: Channel, log: seq<Event>)
    requires Faithful(c, log) && c.buffer != []
    ensures Faithful(c.(buffer := c.buffer[1..], received := c.received + [c.buffer[0]]), log)
  {
    assert (c.received + [c.buffer[0]]) + c.buffer[1..] == c.received + c.buffer;
  }

  lemma OfferFaithful(c: Channel, log: seq<Event>, event: Event)
    requires Faithful(c, log)
    ensures !c.closed ==> Faithful(Offered(c, event), log + [event])
    ensures c.closed ==> Faithful(c, log + [event])
  {
    assert c.received + (c.buffer + [event]) == (c.received + c.buffer) + [event];
  }

  lemma PublishedFaithful(s: State, h: History, event: Event, ch: nat)
    requires Inv(s, h) && ch in s.channels
    ensures ch in h.logs && Faithful(Published(s, event).channels[ch], Record(h, s, Publish(event)).logs[ch])
  {
    OfferFaithful(s.channels[ch], h.logs[ch], event);
  }

  lemma PublishKeeps(s: State, h: History, event: Event)
    requires Inv(s, h)
    ensures Inv(Published(s, event), Record(h, s, Publish(event)))
  {
    var t, r := Published(s, event), Record(h, s, Publish(event));
    ConsistentStep(s, Publish(event));
    PublishedListeners(s, h, event);
    forall ch | ch in t.channels ensures ch in r.logs && Faithful(t.channels[ch], r.logs[ch]) {
      PublishedFaithful(s, h, event, ch);
    }
  }

  /** Who is on record, and for which machine. */
  lemma PublishedListeners(s: State, h: History, event: Event)
    requires Inv(s, h)
    ensures var t, r := Published(s, event), Record(h, s, Publish(event));
      && r.logs.Keys == t.channels.Keys && r.machines == h.machines && r.machines.Keys == t.channels.Keys
      && forall ch :: ch in t.subscribers ==> ch in r.machines && t.subscribers[ch] == r.machines[ch]
  {
  }

  lemma SubscribeKeeps(s: State, h: History, machine: int)
    requires Inv(s, h)
    ensures Inv(Step(s, Subscribe(machine)), Record(h, s, Subscribe(machine)))
  {
    ConsistentStep(s, Subscribe(machine));
  }

  lemma UnsubscribeKeeps(s: State, h: History, ch: nat)
    requires Inv(s, h)
    ensures Inv(Step(s, Unsubscribe(ch)), Record(h, s, Unsubscribe(ch)))
  {
    ConsistentStep(s, Unsubscribe(ch));
  }

  lemma ReceiveKeeps(s: State, h: History, ch: nat)
    requires Inv(s, h) && Enabled(s, Receive(ch))
    ensures Inv(Step(s, Receive(ch)), Record(h, s, Receive(ch)))
  {
    ConsistentStep(s, Receive(ch));
    ReceiveFaithful(s.channels[ch], h.logs[ch]);
  }

  lemma StepKeeps(s: State, h: History, op: Operation)
    requires Inv(s, h) && Enabled(s, op)
    ensures Inv(Step(s, op), Record(h, s, op))
  {
    match op {
      case Publish(event) => PublishKeeps(s, h, event);
      case Receive(ch) => ReceiveKeeps(s, h, ch);
      case Subscribe(machine) => SubscribeKeeps(s, h, machine);
      case Unsubscribe(ch) => UnsubscribeKeeps(s, h, ch);
    }
  }

  ghost predicate Runs(states: seq<State>, histories: seq<History>, ops: seq<Operation>) {
    && |states| == |histories| == |ops| + 1
    && states[0] == START && histories[0] == History(map[], map[])
    && forall i :: 0 <= i < |ops| ==>
      && Enabled(states[i], ops[i])
      && states[i + 1] == Step(states[i], ops[i])
      && histories[i + 1] == Record(histories[i], states[i], ops[i])
  }

  lemma {:induction false} RunKeeps(states: seq<State>, histories: seq<History>, ops: seq<Operation>, i: nat)
    requires Runs(states, histories, ops) && i <= |ops|
    ensures Inv(states[i], histories[i])
  {
    if i > 0 {
      RunKeeps(states, histories, ops, i - 1);
      StepKeeps(states[i - 1], histories[i - 1], ops[i - 1]);
    }
  }

  /** What a channel has been given, delivered or still waiting. */
  function Given(s: State, ch: nat): seq<Event>
    requires ch in s.channels
  {
    s.channels[ch].received + s.channels[ch].buffer
  }

  lemma ClosedStep(s: State, op: Operation, ch: nat)
    requires Consistent(s) && Enabled(s, op) && ch in s.channels && s.channels[ch].closed
    ensures ch in Step(s, op).channels && Step(s, op).channels[ch].closed && Given(Step(s, op), ch) == Given(s, ch)
  {
    if op.Receive? && op.ch == ch {
      var c := s.channels[ch];
      assert (c.received + [c.buffer[0]]) + c.buffer[1..] == c.received + c.buffer;
    }
  }

  /** A channel that is closed stays so, and gains nothing. */
  lemma {:induction false} ClosedForGood(states: seq<State>, histories: seq<History>, ops: seq<Operation>, ch: nat, i: nat, j: nat)
    requires Runs(states, histories, ops) && i <= j <= |ops|
    requires ch in states[i].channels && states[i].channels[ch].closed
    ensures ch in states[j].channels && states[j].channels[ch].closed && Given(states[j], ch) == Given(states[i], ch)
    decreases j
  {
    if i < j {
      ClosedForGood(states, histories, ops, ch, i, j - 1);
      RunKeeps(states, histories, ops, j - 1);
      ClosedStep(states[j - 1], ops[j - 1], ch);
    }
  }

  /** The hub closes a channel by itself only when its reader is 64 events behind; the
      channels of other machines are left as they are. */
  lemma ClosedWhenFull(s: State, event: Event, ch: nat)
    requires Consistent(s) && ch in s.channels && !s.channels[ch].closed
    ensures Published(s, event).channels[ch].closed <==> s.subscribers[ch] == event.machine && |s.channels[ch].buffer| >= 64
    ensures s.subscribers[ch] == event.machine && |s.channels[ch].buffer| < 64
      <==> Published(s, event).channels[ch].buffer == s.channels[ch].buffer + [event]
    ensures s.subscribers[ch] != event.machine ==> Published(s, event).channels[ch] == s.channels[ch]
    ensures Published(s, event).channels[ch].received == s.channels[ch].received
  {
    assert |s.channels[ch].buffer + [event]| == |s.channels[ch].buffer| + 1;
  }
}
