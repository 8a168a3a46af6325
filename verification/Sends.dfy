/** Sending messages over the socket: the client's map of pending requests, the server's
    command loop, and the connections between them. */
module Sends {
  import opened Common

  const TIMEOUT := 30000

  datatype Outcome = Resolved | Refused | Uncertain | NotReady

  datatype Status = Closed | Opened | Closing

  datatype Reply = Ready | Ack(id: nat) | Failure(id: nat)

  /** What the browser holds: the deadline of each request in the map, and for each call
      of `send` the settlements of its promise. The calls number the requests. */
  datatype Client = Client(
    now: int, calls: nat, pending: map<nat, int>, settled: map<nat, seq<Outcome>>, issued: map<nat, int>,
    ready: bool, status: Status, stopped: bool, generation: nat)

  /** One connection: requests on their way up, replies on their way down. */
  datatype Connection = Connection(up: seq<nat>, down: seq<Reply>)

  /** `stored` counts the messages that the server kept for a request, `wire` lists every
      request frame handed to a socket. */
  datatype World = World(client: Client, connections: map<nat, Connection>, stored: map<nat, nat>, wire: seq<nat>)

  /** How the server ends a command. */
  datatype Ending = Kept | Rejected | KeptUnknowingly | Unanswered | Dropped

  datatype Step =
    | Tick(elapsed: nat)
    | Open
    | Send(throws: bool)
    | Receive
    | Expire(id: nat)
    | Close
    | Stop
    | Welcome(generation: nat)
    | Command(generation: nat, ending: Ending)

  // ----- the client

  function Settle(c: Client, id: nat, outcome: Outcome): Client {
    c.(pending := c.pending - {id},
       settled := c.settled[id := (if id in c.settled then c.settled[id] else []) + [outcome]])
  }

  function Opening(c: Client): Client {
    c.(generation := c.generation + 1, status := Opened, ready := false)
  }

  predicate CanSend(c: Client) {
    c.ready && c.status == Opened
  }

  /** A call of `send`. */
  function Called(c: Client, throws: bool): Client {
    var id := c.calls;
    var d := c.(calls := id + 1, issued := c.issued[id := c.now]);
    if !CanSend(c) then Settle(d, id, NotReady)
    else
      var d := d.(pending := d.pending[id := c.now + TIMEOUT]);
      if throws then Settle(d, id, Uncertain).(status := Closing) else d
  }

  function Replied(c: Client, reply: Reply): Client {
    match reply
    case Ready => c.(ready := true)
    case Ack(id) => if id in c.pending then Settle(c, id, Resolved) else c
    case Failure(id) => if id in c.pending then Settle(c, id, Refused) else c
  }

  function Expired(c: Client, id: nat): Client {
    Settle(c, id, Uncertain).(status := if c.status == Opened then Closing else c.status)
  }

  /** The close event rejects all that is pending. */
  function Ended(c: Client): Client {
    c.(ready := false, status := Closed, pending := map[], settled := RejectAll(c.settled, c.pending.Keys))
  }

  function RejectAll(settled: map<nat, seq<Outcome>>, ids: set<nat>): map<nat, seq<Outcome>> {
    map id | id in settled.Keys + ids ::
      if id in ids then (if id in settled then settled[id] else []) + [Uncertain] else settled[id]
  }

  function Stopping(c: Client): Client {
    c.(stopped := true, status := if c.status == Opened then Closing else c.status)
  }

  class MessageSocket {
    var now: int
    var calls: nat
    var pending: map<nat, int>
    var settled: map<nat, seq<Outcome>>
    var issued: map<nat, int>
    var ready: bool
    var status: Status
    var stopped: bool
    var generation: nat

    function Snapshot(): Client
      reads this
    {
      Client(now, calls, pending, settled, issued, ready, status, stopped, generation)
    }

    /** Settles a promise. */
    method Settled(id: nat, outcome: Outcome)
      modifies this`settled
      ensures settled == old(settled)[id := (if id in old(settled) then old(settled)[id] else []) + [outcome]]
    {
      settled := settled[id := (if id in settled then settled[id] else []) + [outcome]];
    }

    /** `send`: returns whether a frame went to the socket. */
    method SendMessage(throws: bool) returns (sent: bool)
      modifies this
      ensures Snapshot() == Called(old(Snapshot()), throws)
      ensures sent == (CanSend(old(Snapshot())) && !throws)
    {
      var id := calls;
      calls := calls + 1;
      issued := issued[id := now];
      if !ready || status != Opened {
        pending := pending - {id};
        Settled(id, NotReady);
        return false;
      }
      pending := pending[id := now + TIMEOUT];
      if throws {
        pending := pending - {id};
        Settled(id, Uncertain);
        status := Closing;
        return false;
      }
      return true;
    }

    method OnMessage(reply: Reply)
      modifies this
      ensures Snapshot() == Replied(old(Snapshot()), reply)
    {
      match reply {
        case Ready => ready := true;
        case Ack(id) =>
          if id in pending {
            pending := pending - {id};
            Settled(id, Resolved);
          }
        case Failure(id) =>
          if id in pending {
            pending := pending - {id};
            Settled(id, Refused);
          }
      }
    }

    method OnTimer(id: nat)
      modifies this
      ensures Snapshot() == Expired(old(Snapshot()), id)
    {
      pending := pending - {id};
      Settled(id, Uncertain);
      if status == Opened {
        status := Closing;
      }
    }

    /** The loop over the pending requests, in any order. */
    method OnClose()
      modifies this
      ensures Snapshot() == Ended(old(Snapshot()))
    {
      ready := false;
      var rest := pending.Keys;
      ghost var done: set<nat> := {};
      while rest != {}
        invariant done !! rest && done + rest == old(pending).Keys
        invariant unchanged(`now) && unchanged(`calls) && unchanged(`pending) && unchanged(`issued) && !ready
        invariant unchanged(`status) && unchanged(`stopped) && unchanged(`generation)
        invariant settled == RejectAll(old(settled), done)
        decreases rest
      {
        var id :| id in rest;
        RejectedNext(old(settled), done, id);
        Settled(id, Uncertain);
        rest, done := rest - {id}, done + {id};
      }
      pending := map[];
      status := Closed;
      assert done == old(pending).Keys;
    }
  }

  lemma RejectedNext(settled: map<nat, seq<Outcome>>, ids: set<nat>, id: nat)
    requires id !in ids
    ensures var r := RejectAll(settled, ids);
      RejectAll(settled, ids + {id}) == r[id := (if id in r then r[id] else []) + [Uncertain]]
  {
  }

  // ----- the server

  /** The command loop of one connection: every command that is carried out gets exactly
      one reply, in order, and the loop ends at the first that is not. */
  method ServeCommands(commands: seq<nat>, endings: nat -> Ending) returns (down: seq<Reply>, kept: seq<nat>, n: nat)
    ensures n <= |commands| && |down| == n
    ensures forall i :: 0 <= i < n ==> down[i] == if endings(i).Kept? then Ack(commands[i]) else Failure(commands[i])
    ensures n < |commands| ==> endings(n).Unanswered? || endings(n).Dropped?
    ensures forall id :: Ack(id) in down ==> id in kept
    ensures Increasing(commands) ==> Increasing(kept)
  {
    down, kept, n := [], [], 0;
    while n < |commands|
      invariant n <= |commands| && |down| == n
      invariant forall i :: 0 <= i < n ==> down[i] == if endings(i).Kept? then Ack(commands[i]) else Failure(commands[i])
      invariant forall id :: Ack(id) in down ==> id in kept
      invariant forall k <- kept :: k in commands[..n]
      invariant Increasing(commands) ==> Increasing(kept)
    {
      if Increasing(commands) {
        AppendIncreasing(commands, kept, n);
      }
      match endings(n) {
        case Kept =>
          kept := kept + [commands[n]];
          down := down + [Ack(commands[n])];
        case KeptUnknowingly =>
          kept := kept + [commands[n]];
          down := down + [Failure(commands[n])];
        case Rejected => down := down + [Failure(commands[n])];
        case Unanswered =>
          kept := kept + [commands[n]];
          return;
        case Dropped => return;
      }
      assert commands[..n + 1] == commands[..n] + [commands[n]];
      n := n + 1;
    }
  }

  predicate Increasing(s: seq<nat>) {
    forall i, j :: 0 <= i < j < |s| ==> s[i] < s[j]
  }

  lemma AppendIncreasing(commands: seq<nat>, kept: seq<nat>, n: nat)
    requires n < |commands| && Increasing(commands) && Increasing(kept)
    requires forall k <- kept :: k in commands[..n]
    ensures Increasing(kept + [commands[n]])
  {
    forall i | 0 <= i < |kept| ensures kept[i] < commands[n] {
      assert kept[i] in kept;
    }
  }

  function Count(w: World, id: nat): nat {
    if id in w.stored then w.stored[id] else 0
  }

  /** The server takes the next command of a connection. Authentication failures and bad
      commands drop the connection; a lost reply does too. */
  function Commanded(w: World, g: nat, ending: Ending): World
    requires g in w.connections && w.connections[g].up != []
  {
    var c := w.connections[g];
    var id := c.up[0];
    var stored := w.stored[id := Count(w, id) + 1];
    match ending
    case Kept => w.(stored := stored, connections := w.connections[g := Connection(c.up[1..], c.down + [Ack(id)])])
    case KeptUnknowingly => w.(stored := stored, connections := w.connections[g := Connection(c.up[1..], c.down + [Failure(id)])])
    case Rejected => w.(connections := w.connections[g := Connection(c.up[1..], c.down + [Failure(id)])])
    case Unanswered => w.(stored := stored, connections := w.connections[g := Connection([], c.down)])
    case Dropped => w.(connections := w.connections[g := Connection([], c.down)])
  }

  // ----- both together

  predicate Enabled(w: World, s: Step) {
    var c := w.client;
    match s
    case Tick(elapsed) => forall id :: id in c.pending ==> c.now + elapsed <= c.pending[id]
    case Open => c.status == Closed && !c.stopped
    case Send(_) => true
    case Receive => c.status != Closed && c.generation in w.connections && w.connections[c.generation].down != []
    case Expire(id) => id in c.pending && c.now >= c.pending[id]
    case Close => c.status != Closed
    case Stop => true
    case Welcome(g) => g in w.connections
    case Command(g, _) => g in w.connections && w.connections[g].up != []
  }

  function Next(w: World, s: Step): World
    requires Enabled(w, s)
  {
    var c := w.client;
    match s
    case Tick(elapsed) => w.(client := c.(now := c.now + elapsed))
    case Open => w.(client := Opening(c), connections := w.connections[c.generation + 1 := Connection([], [])])
    case Send(throws) =>
      if CanSend(c) && !throws && c.generation in w.connections then
        var wire := w.connections[c.generation];
        w.(client := Called(c, throws), wire := w.wire + [c.calls],
           connections := w.connections[c.generation := wire.(up := wire.up + [c.calls])])
      else w.(client := Called(c, throws))
    case Receive =>
      var wire := w.connections[c.generation];
      w.(client := Replied(c, wire.down[0]), connections := w.connections[c.generation := wire.(down := wire.down[1..])])
    case Expire(id) => w.(client := Expired(c, id))
    case Close => w.(client := Ended(c))
    case Stop => w.(client := Stopping(c))
    case Welcome(g) => w.(connections := w.connections[g := w.connections[g].(down := w.connections[g].down + [Ready])])
    case Command(g, ending) => Commanded(w, g, ending)
  }

  const START := World(Client(0, 0, map[], map[], map[], false, Closed, false, 0), map[], map[], [])

  ghost predicate Runs(worlds: seq<World>, steps: seq<Step>) {
    && |worlds| == |steps| + 1 && worlds[0] == START
    && forall i :: 0 <= i < |steps| ==> Enabled(worlds[i], steps[i]) && worlds[i + 1] == Next(worlds[i], steps[i])
  }

  // ----- the invariant

  /** A call is either in the map, unsettled, with its timer running, or settled once. */
  ghost predicate Accounted(c: Client, id: nat) {
    if id < c.calls then
      && id in c.issued
      && (id in c.pending ==> id !in c.settled && c.now <= c.pending[id] == c.issued[id] + TIMEOUT)
      && (id !in c.pending ==> id in c.settled && |c.settled[id]| == 1)
    else id !in c.pending && id !in c.settled
  }

  /** At most one frame, at most one message, and no acknowledgement without it. */
  ghost predicate Once(w: World, id: nat) {
    && Count(w, id) <= 1
    && (id >= w.client.calls ==> Count(w, id) == 0)
    && (forall g :: g in w.connections && id in w.connections[g].up ==> Count(w, id) == 0)
    && (forall g, h :: g in w.connections && h in w.connections && id in w.connections[g].up && id in w.connections[h].up ==> g == h)
    && (forall g :: g in w.connections && Ack(id) in w.connections[g].down ==> Count(w, id) == 1)
    && (id in w.client.settled && Resolved in w.client.settled[id] ==> Count(w, id) == 1)
  }

  /** Requests in the order of their calls. */
  predicate Lined(s: seq<nat>, bound: nat) {
    Increasing(s) && forall i :: 0 <= i < |s| ==> s[i] < bound
  }

  lemma LinedNext(s: seq<nat>, bound: nat)
    requires Lined(s, bound)
    ensures Lined(s, bound + 1) && Lined(s + [bound], bound + 1)
  {
  }

  ghost predicate Wires(w: World) {
    && Lined(w.wire, w.client.calls)
    && (forall g :: g in w.connections ==> Lined(w.connections[g].up, w.client.calls))
    && (forall g :: g in w.connections ==> g <= w.client.generation)
    && (w.client.status != Closed ==> w.client.generation in w.connections)
  }

  ghost predicate Inv(w: World) {
    && Wires(w)
    && (forall id: nat :: Accounted(w.client, id))
    && (forall id: nat :: Once(w, id))
  }

  lemma CallAccounted(c: Client, throws: bool, id: nat)
    requires Accounted(c, id)
    requires id == c.calls ==> id !in c.settled
    ensures Accounted(Called(c, throws), id)
  {
  }

  lemma ReplyAccounted(c: Client, reply: Reply, id: nat)
    requires Accounted(c, id)
    ensures Accounted(Replied(c, reply), id)
  {
  }

  lemma ClientAccounted(w: World, s: Step, id: nat)
    requires Enabled(w, s) && Accounted(w.client, id)
    ensures Accounted(Next(w, s).client, id)
  {
    match s {
      case Send(throws) => CallAccounted(w.client, throws, id);
      case Receive => ReplyAccounted(w.client, w.connections[w.client.generation].down[0], id);
      case _ =>
    }
  }

  /** A frame goes up. */
  lemma SendOnce(w: World, throws: bool, id: nat)
    requires Wires(w) && Once(w, id)
    ensures Once(Next(w, Send(throws)), id)
  {
    var c := w.client;
    CalledResolves(c, throws, id);
    if CanSend(c) && !throws && c.generation in w.connections {
      var up := w.connections[c.generation].up;
      assert id in up + [c.calls] <==> id in up || id == c.calls;
      if id == c.calls {
        forall g | g in w.connections ensures id !in w.connections[g].up {
          assert Lined(w.connections[g].up, id);
        }
      }
    }
  }

  lemma CalledResolves(c: Client, throws: bool, id: nat)
    ensures var r := Called(c, throws).settled; id in r && Resolved in r[id] ==> id in c.settled && Resolved in c.settled[id]
  {
  }

  lemma ReceiveOnce(w: World, id: nat)
    requires Enabled(w, Receive) && Wires(w) && Once(w, id)
    ensures Once(Next(w, Receive), id)
  {
    var down := w.connections[w.client.generation].down;
    assert Ack(id) in down[1..] ==> Ack(id) in down;
    RepliedResolves(w.client, down[0], id);
  }

  lemma RepliedResolves(c: Client, reply: Reply, id: nat)
    ensures var r := Replied(c, reply).settled;
      id in r && Resolved in r[id] ==> reply == Ack(id) || (id in c.settled && Resolved in c.settled[id])
  {
  }

  lemma CommandOnce(w: World, g: nat, ending: Ending, id: nat)
    requires Enabled(w, Command(g, ending)) && Wires(w) && Once(w, id)
    ensures Once(Next(w, Command(g, ending)), id)
  {
  }

  lemma SettleOnce(settled: map<nat, seq<Outcome>>, ids: set<nat>, id: nat)
    ensures var r := RejectAll(settled, ids);
      id in r && Resolved in r[id] ==> id in settled && Resolved in settled[id]
  {
  }

  lemma OtherOnce(w: World, s: Step, id: nat)
    requires Enabled(w, s) && Wires(w) && Once(w, id)
    requires !s.Send? && !s.Receive? && !s.Command?
    ensures Once(Next(w, s), id)
  {
    match s {
      case Close => SettleOnce(w.client.settled, w.client.pending.Keys, id);
      case Welcome(g) =>
        var down := w.connections[g].down;
        assert Ack(id) in down + [Ready] ==> Ack(id) in down;
      case Open =>
      case _ =>
    }
  }

  lemma SendWires(w: World, throws: bool)
    requires Wires(w)
    ensures Wires(Next(w, Send(throws)))
  {
    var calls := w.client.calls;
    LinedNext(w.wire, calls);
    forall g | g in w.connections
      ensures Lined(w.connections[g].up, calls + 1) && Lined(w.connections[g].up + [calls], calls + 1)
    {
      LinedNext(w.connections[g].up, calls);
    }
  }

  lemma CommandWires(w: World, g: nat, ending: Ending)
    requires Enabled(w, Command(g, ending)) && Wires(w)
    ensures Wires(Next(w, Command(g, ending)))
  {
  }

  lemma WiresKeep(w: World, s: Step)
    requires Enabled(w, s) && Wires(w)
    ensures Wires(Next(w, s))
  {
    match s {
      case Send(throws) => SendWires(w, throws);
      case Command(g, ending) => CommandWires(w, g, ending);
      case _ =>
    }
  }

  lemma StepKeeps(w: World, s: Step)
    requires Enabled(w, s) && Inv(w)
    ensures Inv(Next(w, s))
  {
    WiresKeep(w, s);
    forall id: nat ensures Accounted(Next(w, s).client, id) && Once(Next(w, s), id) {
      assert Accounted(w.client, id) && Once(w, id);
      ClientAccounted(w, s, id);
      match s {
        case Send(throws) => SendOnce(w, throws, id);
        case Receive => ReceiveOnce(w, id);
        case Command(g, ending) => CommandOnce(w, g, ending, id);
        case _ => OtherOnce(w, s, id);
      }
    }
  }

  lemma {:induction false} RunKeeps(worlds: seq<World>, steps: seq<Step>, i: nat)
    requires Runs(worlds, steps) && i <= |steps|
    ensures Inv(worlds[i])
  {
    if i > 0 {
      RunKeeps(worlds, steps, i - 1);
      StepKeeps(worlds[i - 1], steps[i - 1]);
    }
  }

  /** Every call of `send` settles at most once, whatever happens, and once its 30 seconds
      are over it has settled. Its frame went out at most once. It resolves only if the
      server stored exactly one message for it, and the server never stored two. */
  lemma SendsSettle(worlds: seq<World>, steps: seq<Step>, i: nat, id: nat)
    requires Runs(worlds, steps) && i <= |steps| && id < worlds[i].client.calls
    ensures var w := worlds[i]; var c := w.client;
      && id in c.issued
      && (if id in c.settled then |c.settled[id]| == 1 && id !in c.pending else id in c.pending)
      && (c.now > c.issued[id] + 30000 ==> id in c.settled)
      && (id in c.pending ==> c.pending[id] == c.issued[id] + 30000)
      && Increasing(w.wire)
      && Count(w, id) <= 1
      && (id in c.settled && c.settled[id] == [Resolved] ==> Count(w, id) == 1)
  {
    RunKeeps(worlds, steps, i);
    assert Accounted(worlds[i].client, id) && Once(worlds[i], id);
  }

  /** After the close event nothing is pending, so a reconnect starts with an empty map. */
  lemma CloseSettlesAll(worlds: seq<World>, steps: seq<Step>, i: nat)
    requires Runs(worlds, steps) && i < |steps| && steps[i].Close?
    ensures var c := worlds[i + 1].client;
      c.pending == map[] && forall id: nat :: id < c.calls ==> id in c.settled && |c.settled[id]| == 1
  {
    RunKeeps(worlds, steps, i + 1);
    var c := worlds[i + 1].client;
    forall id: nat | id < c.calls ensures id in c.settled && |c.settled[id]| == 1 {
      assert Accounted(c, id);
    }
  }

  // ----- how a send settles

  /** The reply that the client reads next. */
  ghost predicate Reads(w: World, reply: Reply) {
    && w.client.generation in w.connections
    && w.connections[w.client.generation].down != [] && w.connections[w.client.generation].down[0] == reply
  }

  /** An acknowledgement resolves the request that waits for it, for which the server has
      stored exactly one message; a failure refuses it; neither touches another request. */
  lemma RepliesSettle(worlds: seq<World>, steps: seq<Step>, i: nat, reply: Reply, id: nat)
    requires Runs(worlds, steps) && i < |steps| && steps[i] == Receive && Reads(worlds[i], reply)
    ensures var c, d := worlds[i].client, worlds[i + 1].client;
      && (id in c.pending && reply == Ack(id) ==>
            id !in d.pending && id in d.settled && d.settled[id] == [Resolved] && Count(worlds[i + 1], id) == 1)
      && (id in c.pending && reply == Failure(id) ==> id !in d.pending && id in d.settled && d.settled[id] == [Refused])
      && (reply != Ack(id) && reply != Failure(id) ==>
            && (id in d.pending <==> id in c.pending) && (id in d.settled <==> id in c.settled)
            && (id in c.settled ==> d.settled[id] == c.settled[id]))
      && (d.ready <==> c.ready || reply == Ready)
  {
    RunKeeps(worlds, steps, i);
    RunKeeps(worlds, steps, i + 1);
    assert Accounted(worlds[i].client, id) && Once(worlds[i], id);
    assert Once(worlds[i + 1], id);
  }

  /** A call that finds the socket ready and open puts its frame on the wire and waits for 30
      seconds; if the socket throws, its fate is uncertain; a call that finds the socket not
      ready or not open is told so, and nothing is sent. */
  lemma CallAnswers(worlds: seq<World>, steps: seq<Step>, i: nat, throws: bool)
    requires Runs(worlds, steps) && i < |steps| && steps[i] == Send(throws)
    ensures var w, v := worlds[i], worlds[i + 1]; var c, d := w.client, v.client; var id := c.calls;
      if !c.ready || c.status != Opened then
        id in d.settled && d.settled[id] == [NotReady] && id !in d.pending && v.wire == w.wire && v.connections == w.connections
      else if throws then
        id in d.settled && d.settled[id] == [Uncertain] && id !in d.pending && v.wire == w.wire && d.status == Closing
      else
        && id in d.pending && d.pending[id] == c.now + 30000 && id !in d.settled
        && v.wire == w.wire + [id]
        && c.generation in w.connections && c.generation in v.connections
        && v.connections[c.generation].up == w.connections[c.generation].up + [id]
  {
    RunKeeps(worlds, steps, i);
    assert Accounted(worlds[i].client, worlds[i].client.calls);
  }

  /** What is still pending when its time is over or when the connection closes is
      uncertain. */
  lemma RestIsUncertain(worlds: seq<World>, steps: seq<Step>, i: nat, id: nat)
    requires Runs(worlds, steps) && i < |steps| && id in worlds[i].client.pending
    requires steps[i] == Expire(id) || steps[i] == Close
    ensures var d := worlds[i + 1].client; id !in d.pending && id in d.settled && d.settled[id] == [Uncertain]
    ensures steps[i] == Expire(id) ==>
      && id in worlds[i].client.issued && worlds[i].client.now >= worlds[i].client.issued[id] + 30000
      && worlds[i + 1].client.status != Opened
    ensures steps[i] == Close ==> worlds[i + 1].client.status == Closed && !worlds[i + 1].client.ready
  {
    RunKeeps(worlds, steps, i);
    assert Accounted(worlds[i].client, id);
  }

  /** A new connection is not ready before it says so, and a stopped client opens none. */
  lemma OpensUnready(worlds: seq<World>, steps: seq<Step>, i: nat)
    requires Runs(worlds, steps) && i < |steps|
    ensures steps[i] == Open ==>
      var c, d := worlds[i].client, worlds[i + 1].client;
      && !c.stopped && c.status == Closed && d.status == Opened && !d.ready
      && d.generation !in worlds[i].connections && d.generation in worlds[i + 1].connections
      && worlds[i + 1].connections[d.generation] == Connection([], [])
    ensures steps[i] == Stop ==> worlds[i + 1].client.stopped && worlds[i + 1].client.status != Opened
    ensures worlds[i].client.stopped ==> worlds[i + 1].client.stopped
  {
    RunKeeps(worlds, steps, i);
  }

  /** The server takes commands in order. What it keeps it acknowledges, unless it does not
      know or the connection is lost; what it acknowledges it has kept. */
  lemma CommandAnswers(w: World, g: nat, ending: Ending)
    requires g in w.connections && w.connections[g].up != []
    ensures var v := Commanded(w, g, ending); var id := w.connections[g].up[0]; var c, d := w.connections[g], v.connections[g];
      && v.client == w.client && v.wire == w.wire && v.connections.Keys == w.connections.Keys
      && Count(v, id) == Count(w, id) + (if ending.Kept? || ending.KeptUnknowingly? || ending.Unanswered? then 1 else 0)
      && d.down == c.down + (if ending.Kept? then [Ack(id)] else if ending.KeptUnknowingly? || ending.Rejected? then [Failure(id)] else [])
      && d.up == (if ending.Unanswered? || ending.Dropped? then [] else c.up[1..])
      && (forall k :: k != id ==> Count(v, k) == Count(w, k))
      && forall h :: h in w.connections && h != g ==> v.connections[h] == w.connections[h]
  {
    assert w.connections[g].down + [] == w.connections[g].down;
  }
}
