/** The rotation queue joined to the server: what coalescing clicks into net angles
    means for the stored pixels and for the markers. */
module RotationWorld {
  import opened Common
  import opened Turns
  import opened Pixels
  import opened Markers
  import opened Sequences
  import Formats
  import Q = RotationQueue

  /** The image library and the hash, seen from outside: the displayed image of a
      stored file, the file that a rotation produces unless it is refused, and the
      content hash. */
  datatype Codec<!B, !T, !H> = Codec(view: B -> Image<T>, rotate: (B, int) -> Option<B>, hash: B -> H)

  ghost predicate Lossless<B(!new), T, H>(c: Codec<B, T, H>, format: iset<B>) {
    Formats.Lossless(c.view, c.rotate, format)
  }

  datatype Server<B> = Server(file: B, markers: seq<Point>)

  /** One committed rotation: a new file, and every marker of the photo moved. A photo
      that cannot be rotated stays. */
  function Apply<B, T, H>(c: Codec<B, T, H>, server: Server<B>, degrees: int): Option<Server<B>> {
    match c.rotate(server.file, degrees)
    case None => None
    case Some(file) =>
      Some(Server(file, seq(|server.markers|, i requires 0 <= i < |server.markers| => Update(server.markers[i], degrees))))
  }

  /** How a request ends: answered, applied without an answer reaching the client,
      or refused before anything was committed. */
  datatype Reply = Answered | Lost | Refused

  datatype Event = Click(degrees: int) | TimerFires | Retry | Dispose | Save(reply: Reply)

  /** The client knows the photo by its hash. */
  datatype World<B, H> = World(queue: Q.State<H>, ledger: Q.Ledger<H>, server: Server<B>)

  function ClientStep<B, H>(w: World<B, H>, e: Q.Event<H>): World<B, H> {
    w.(queue := Q.Step(w.queue, e), ledger := Q.Record(w.ledger, w.queue, e))
  }

  function Step<B, T, H(==)>(c: Codec<B, T, H>, w: World<B, H>, e: Event): World<B, H> {
    match e
    case Click(degrees) => ClientStep(w, Q.Click(degrees))
    case TimerFires => ClientStep(w, Q.TimerFires)
    case Retry => ClientStep(w, Q.Retry)
    case Dispose => ClientStep(w, Q.Dispose)
    case Save(reply) =>
      if w.queue.flight.None? then w
      else if reply.Refused? || w.queue.current != c.hash(w.server.file) then ClientStep(w, Q.Reject)
      else
        match Apply(c, w.server, w.queue.flight.value)
        case None => ClientStep(w, Q.Reject)
        case Some(server) =>
          var w := w.(server := server);
          if reply.Lost? then ClientStep(w, Q.Reject) else ClientStep(w, Q.Resolve(c.hash(server.file)))
  }

  function Start<B, T, H>(c: Codec<B, T, H>, server: Server<B>): World<B, H> {
    World(Q.Initial(c.hash(server.file)), Q.Ledger(0, 0, 0, []), server)
  }

  function Run<B, T, H(==)>(c: Codec<B, T, H>, server: Server<B>, events: seq<Event>): World<B, H> {
    if events == [] then Start(c, server)
    else Step(c, Run(c, server, events[..|events| - 1]), events[|events| - 1])
  }

  function Clicks(events: seq<Event>): seq<int> {
    if events == [] then []
    else Clicks(events[..|events| - 1]) + match events[|events| - 1] case Click(degrees) => [degrees] case _ => []
  }

  predicate QuarterClicks(events: seq<Event>) {
    forall e <- events :: e.Click? ==> QuarterMultiple(e.degrees)
  }

  // ----- the invariant of the joined system

  ghost predicate Turned(now: seq<Point>, first: seq<Point>, degrees: int)
    requires QuarterMultiple(degrees)
  {
    && |now| == |first|
    && forall i :: 0 <= i < |now| ==> now[i] == TurnPointBy(first[i], degrees)
  }

  /** The queue keeps its own invariants, the client's hash is current, and the markers
      are the first ones turned by what is committed. */
  ghost predicate Inv<B, T, H>(c: Codec<B, T, H>, first: Server<B>, w: World<B, H>) {
    && Q.Inv(w.queue, w.ledger)
    && Q.Chained(w.queue, w.ledger.outcomes, c.hash(first.file))
    && w.queue.current == c.hash(w.server.file)
    && QuarterMultiple(w.ledger.committed)
    && Turned(w.server.markers, first.markers, w.ledger.committed)
  }

  /** The server shows the first photo turned by what is committed. */
  ghost predicate Shows<B, T, H>(c: Codec<B, T, H>, format: iset<B>, first: B, now: B, committed: int) {
    && now in format && c.view(first).Valid() && QuarterMultiple(committed)
    && c.view(now) == TurnBy(c.view(first), committed)
  }

  lemma MarkersTurn(now: seq<Point>, first: seq<Point>, moved: seq<Point>, committed: int, degrees: int)
    requires Legal(degrees) && QuarterMultiple(committed) && Turned(now, first, committed)
    requires |moved| == |now| && forall i :: 0 <= i < |now| ==> moved[i] == Update(now[i], degrees)
    ensures QuarterMultiple(committed + degrees) && Turned(moved, first, committed + degrees)
  {
    QuartersSum(committed, degrees);
    var total := committed + degrees;
    forall i | 0 <= i < |moved|
      ensures moved[i] == TurnPointBy(first[i], total)
    {
      UpdateIsTurn(now[i], degrees);
      TurnPointBySum(first[i], committed, degrees);
    }
  }

  lemma ApplyTurns<B(!new), T, H>(c: Codec<B, T, H>, format: iset<B>, first: B, now: B, committed: int, degrees: int)
    requires Lossless(c, format) && Legal(degrees) && Shows(c, format, first, now, committed)
    requires c.rotate(now, degrees).Some?
    ensures Shows(c, format, first, c.rotate(now, degrees).value, committed + degrees)
  {
    assert Formats.TurnsTrue(c.view, c.rotate, format, now, degrees);
    TurnBySum(c.view(first), committed, degrees);
  }

  /** The photo in flight carries a legal angle. */
  lemma FlightIsLegal<P>(s: Q.State<P>, outcomes: seq<Option<P>>, photo: P)
    requires Q.Chained(s, outcomes, photo) && s.flight.Some?
    ensures Legal(s.flight.value)
  {
    var last := |Q.Requests(s.log)| - 1;
    assert Legal(Q.Requests(s.log)[last].1);
  }

  /** What the queue itself keeps. */
  lemma QueueKeeps<B, T, H>(c: Codec<B, T, H>, first: Server<B>, w: World<B, H>, e: Q.Event<H>)
    requires Inv(c, first, w) && Q.Enabled(w.queue, e)
    requires e.Click? ==> QuarterMultiple(e.degrees)
    ensures var r := ClientStep(w, e);
      && Q.Inv(r.queue, r.ledger)
      && Q.Chained(r.queue, r.ledger.outcomes, c.hash(first.file))
      && r.queue.current == (if e.Resolve? then e.photo else w.queue.current)
      && r.ledger.committed == w.ledger.committed + (if e.Resolve? then w.queue.flight.value else 0)
  {
    Q.StepKeeps(w.queue, w.ledger, e);
    Q.StepChained(w.queue, w.ledger.outcomes, c.hash(first.file), e);
    Q.StepCurrent(w.queue, e);
  }

  lemma StepKeeps<B, T, H>(c: Codec<B, T, H>, first: Server<B>, w: World<B, H>, e: Q.Event<H>)
    requires Inv(c, first, w) && !e.Resolve?
    requires e.Click? ==> QuarterMultiple(e.degrees)
    ensures Inv(c, first, ClientStep(w, e))
  {
    if Q.Enabled(w.queue, e) {
      QueueKeeps(c, first, w, e);
    } else {
      assert w.ledger.outcomes + [] == w.ledger.outcomes;
    }
  }

  /** An answer that the client receives. */
  lemma AnsweredStep<B, T, H>(c: Codec<B, T, H>, w: World<B, H>, server: Server<B>)
    requires w.queue.flight.Some? && w.queue.current == c.hash(w.server.file)
    requires Apply(c, w.server, w.queue.flight.value) == Some(server)
    ensures Step(c, w, Save(Answered)) == ClientStep(w, Q.Resolve(c.hash(server.file))).(server := server)
  {
  }

  lemma RefusedStep<B, T, H>(c: Codec<B, T, H>, w: World<B, H>)
    requires w.queue.flight.Some? && w.queue.current == c.hash(w.server.file)
    requires Apply(c, w.server, w.queue.flight.value).None?
    ensures Step(c, w, Save(Answered)) == ClientStep(w, Q.Reject)
  {
  }

  lemma ResolvedKeeps<B, T, H>(c: Codec<B, T, H>, first: Server<B>, w: World<B, H>, server: Server<B>)
    requires Inv(c, first, w) && w.queue.flight.Some?
    requires Apply(c, w.server, w.queue.flight.value) == Some(server)
    ensures Inv(c, first, ClientStep(w, Q.Resolve(c.hash(server.file))).(server := server))
  {
    var degrees := w.queue.flight.value;
    FlightIsLegal(w.queue, w.ledger.outcomes, c.hash(first.file));
    MarkersTurn(w.server.markers, first.markers, server.markers, w.ledger.committed, degrees);
    QueueKeeps(c, first, w, Q.Resolve(c.hash(server.file)));
  }

  lemma AnsweredKeeps<B, T, H>(c: Codec<B, T, H>, first: Server<B>, w: World<B, H>)
    requires Inv(c, first, w) && w.queue.flight.Some?
    ensures Inv(c, first, Step(c, w, Save(Answered)))
  {
    match Apply(c, w.server, w.queue.flight.value)
    case None =>
      RefusedStep(c, w);
      StepKeeps(c, first, w, Q.Reject);
    case Some(server) =>
      AnsweredStep(c, w, server);
      ResolvedKeeps(c, first, w, server);
  }

  /** Every event but a lost answer. */
  lemma WorldStepKeeps<B, T, H>(c: Codec<B, T, H>, first: Server<B>, w: World<B, H>, e: Event)
    requires Inv(c, first, w) && e != Save(Lost)
    requires e.Click? ==> QuarterMultiple(e.degrees)
    ensures Inv(c, first, Step(c, w, e))
  {
    match e {
      case Click(degrees) => StepKeeps(c, first, w, Q.Click(degrees));
      case TimerFires => StepKeeps(c, first, w, Q.TimerFires);
      case Retry => StepKeeps(c, first, w, Q.Retry);
      case Dispose => StepKeeps(c, first, w, Q.Dispose);
      case Save(reply) =>
        if w.queue.flight.Some? {
          if reply.Answered? { AnsweredKeeps(c, first, w); } else { StepKeeps(c, first, w, Q.Reject); }
        }
    }
  }

  /** Whatever the format: the hash that the client holds is current, and the markers
      have been moved by what is committed. */
  lemma {:induction false} RunKeeps<B, T, H>(c: Codec<B, T, H>, first: Server<B>, events: seq<Event>)
    requires QuarterClicks(events) && Save(Lost) !in events
    ensures Inv(c, first, Run(c, first, events))
  {
    if events == [] {
      assert Quarters(0) == 0;
    } else {
      var before, e := events[..|events| - 1], events[|events| - 1];
      assert forall x <- before :: x in events;
      assert e in events;
      RunKeeps(c, first, before);
      WorldStepKeeps(c, first, Run(c, first, before), e);
    }
  }

  /** The photo stays, or the angle in flight is applied and counted as committed. */
  ghost predicate Moves<B, T, H>(c: Codec<B, T, H>, w: World<B, H>, x: World<B, H>) {
    || (x.server == w.server && x.ledger.committed == w.ledger.committed)
    || (w.queue.flight.Some? && Legal(w.queue.flight.value)
        && Apply(c, w.server, w.queue.flight.value) == Some(x.server)
        && x.ledger.committed == w.ledger.committed + w.queue.flight.value)
  }

  lemma StepMoves<B, T, H>(c: Codec<B, T, H>, first: Server<B>, w: World<B, H>, e: Event)
    requires Inv(c, first, w) && e != Save(Lost)
    ensures Moves(c, w, Step(c, w, e))
  {
    if w.queue.flight.Some? {
      FlightIsLegal(w.queue, w.ledger.outcomes, c.hash(first.file));
    }
  }

  lemma RunMoves<B, T, H>(c: Codec<B, T, H>, first: Server<B>, events: seq<Event>)
    requires events != [] && QuarterClicks(events) && Save(Lost) !in events
    ensures Moves(c, Run(c, first, events[..|events| - 1]), Run(c, first, events))
  {
    var before, e := events[..|events| - 1], events[|events| - 1];
    assert forall x <- before :: x in events;
    assert e in events;
    RunKeeps(c, first, before);
    StepMoves(c, first, Run(c, first, before), e);
  }

  lemma MovesShows<B(!new), T, H>(c: Codec<B, T, H>, format: iset<B>, first: B, w: World<B, H>, x: World<B, H>)
    requires Lossless(c, format) && Moves(c, w, x) && Shows(c, format, first, w.server.file, w.ledger.committed)
    ensures Shows(c, format, first, x.server.file, x.ledger.committed)
  {
    if x.server != w.server || x.ledger.committed != w.ledger.committed {
      ApplyTurns(c, format, first, w.server.file, w.ledger.committed, w.queue.flight.value);
    }
  }

  lemma StartShows<B(!new), T, H>(c: Codec<B, T, H>, format: iset<B>, first: B)
    requires Lossless(c, format) && first in format
    ensures Shows(c, format, first, first, 0)
  {
    NoTurn(c.view(first));
  }

  /** A photo in a lossless format shows what it should, at every moment. */
  lemma {:induction false} RunShows<B(!new), T, H>(c: Codec<B, T, H>, format: iset<B>, first: Server<B>, events: seq<Event>)
    requires Lossless(c, format) && first.file in format && QuarterClicks(events) && Save(Lost) !in events
    ensures var w := Run(c, first, events); Shows(c, format, first.file, w.server.file, w.ledger.committed)
  {
    if events == [] {
      StartShows(c, format, first.file);
    } else {
      var before := events[..|events| - 1];
      assert forall x <- before :: x in events;
      RunShows(c, format, first, before);
      RunMoves(c, first, events);
      MovesShows(c, format, first.file, Run(c, first, before), Run(c, first, events));
    }
  }

  lemma StepClicks<B, T, H>(c: Codec<B, T, H>, w: World<B, H>, e: Event)
    ensures Step(c, w, e).ledger.clicked == w.ledger.clicked + if e.Click? then e.degrees else 0
  {
  }

  lemma {:induction false} RunClicks<B, T, H>(c: Codec<B, T, H>, first: Server<B>, events: seq<Event>)
    ensures Run(c, first, events).ledger.clicked == Sum(Clicks(events))
  {
    if events != [] {
      var before, e := events[..|events| - 1], events[|events| - 1];
      RunClicks(c, first, before);
      StepClicks(c, Run(c, first, before), e);
      if e.Click? {
        SumAppend(Clicks(before), e.degrees);
      } else {
        assert Clicks(before) + [] == Clicks(before);
      }
    }
  }

  lemma ClicksAreQuarters(events: seq<Event>)
    requires QuarterClicks(events)
    ensures AllQuarters(Clicks(events))
  {
    if events != [] {
      assert forall x <- events[..|events| - 1] :: x in events;
      ClicksAreQuarters(events[..|events| - 1]);
      assert events[|events| - 1] in events;
    }
  }

  function Outstanding<H>(q: Q.State<H>): int {
    Q.InFlight(q) + q.queued
  }

  /** The markers turned by what is still outstanding are the first ones with every
      click applied in turn. */
  ghost predicate MarkersMean<B, H>(first: Server<B>, w: World<B, H>, clicks: seq<int>) {
    && QuarterMultiple(Outstanding(w.queue)) && AllQuarters(clicks)
    && |w.server.markers| == |first.markers|
    && forall i :: 0 <= i < |first.markers| ==>
      TurnPointBy(w.server.markers[i], Outstanding(w.queue)) == PointOneByOne(first.markers[i], clicks)
  }

  /** And so is the stored photo. */
  ghost predicate PixelsMean<B, T, H>(c: Codec<B, T, H>, first: Server<B>, w: World<B, H>, clicks: seq<int>) {
    && QuarterMultiple(Outstanding(w.queue)) && AllQuarters(clicks)
    && c.view(first.file).Valid() && c.view(w.server.file).Valid()
    && TurnBy(c.view(w.server.file), Outstanding(w.queue)) == OneByOne(c.view(first.file), clicks)
  }

  /** What is committed and what is outstanding make up the clicks. */
  ghost predicate Adds<B, H>(first: Server<B>, w: World<B, H>, clicks: seq<int>) {
    && AllQuarters(clicks) && QuarterMultiple(w.ledger.committed) && QuarterMultiple(Outstanding(w.queue))
    && Turned(w.server.markers, first.markers, w.ledger.committed)
    && SameAngle(Sum(clicks), w.ledger.committed + Outstanding(w.queue))
  }

  lemma InvAdds<B, T, H>(c: Codec<B, T, H>, first: Server<B>, w: World<B, H>, clicks: seq<int>)
    requires Inv(c, first, w) && AllQuarters(clicks) && w.ledger.clicked == Sum(clicks)
    ensures Adds(first, w, clicks)
  {
    OutstandingIsQuarters(w.queue, w.ledger.outcomes, c.hash(first.file));
    assert w.ledger.committed + Q.InFlight(w.queue) + w.queue.queued == w.ledger.committed + Outstanding(w.queue);
  }

  lemma RunAdds<B, T, H>(c: Codec<B, T, H>, first: Server<B>, events: seq<Event>)
    requires QuarterClicks(events) && Save(Lost) !in events
    ensures Adds(first, Run(c, first, events), Clicks(events))
  {
    RunKeeps(c, first, events);
    RunClicks(c, first, events);
    ClicksAreQuarters(events);
    InvAdds(c, first, Run(c, first, events), Clicks(events));
  }

  lemma AddsMarkers<B, H>(first: Server<B>, w: World<B, H>, clicks: seq<int>)
    requires Adds(first, w, clicks)
    ensures MarkersMean(first, w, clicks)
  {
    forall i | 0 <= i < |first.markers|
      ensures TurnPointBy(w.server.markers[i], Outstanding(w.queue)) == PointOneByOne(first.markers[i], clicks)
    {
      SumOfTurns(Image<int>.Image(0, 0, []), first.markers[i], clicks, w.ledger.committed, Outstanding(w.queue));
    }
  }

  lemma AddsPixels<B, T, H>(c: Codec<B, T, H>, format: iset<B>, first: Server<B>, w: World<B, H>, clicks: seq<int>)
    requires Adds(first, w, clicks) && Shows(c, format, first.file, w.server.file, w.ledger.committed)
    ensures PixelsMean(c, first, w, clicks)
  {
    SumOfTurns(c.view(first.file), Point(0.0, 0.0), clicks, w.ledger.committed, Outstanding(w.queue));
  }

  /** Coalescing preserves the meaning of the clicks for markers, whatever the format, at
      every moment of every run in which no answer is lost. */
  lemma CoalescingPreservesMarkers<B, T, H>(c: Codec<B, T, H>, first: Server<B>, events: seq<Event>)
    requires QuarterClicks(events) && Save(Lost) !in events
    ensures MarkersMean(first, Run(c, first, events), Clicks(events))
  {
    RunAdds(c, first, events);
    AddsMarkers(first, Run(c, first, events), Clicks(events));
  }

  /** And for the pixels of a photo in a lossless format. */
  lemma CoalescingPreservesMeaning<B(!new), T, H>(c: Codec<B, T, H>, format: iset<B>, first: Server<B>, events: seq<Event>)
    requires Lossless(c, format) && first.file in format && QuarterClicks(events) && Save(Lost) !in events
    ensures PixelsMean(c, first, Run(c, first, events), Clicks(events))
  {
    RunAdds(c, first, events);
    RunShows(c, format, first, events);
    AddsPixels(c, format, first, Run(c, first, events), Clicks(events));
  }

  lemma OutstandingIsQuarters<P>(s: Q.State<P>, outcomes: seq<Option<P>>, photo: P)
    requires Q.Chained(s, outcomes, photo)
    ensures QuarterMultiple(Q.InFlight(s) + s.queued)
  {
    if s.flight.Some? {
      FlightIsLegal(s, outcomes, photo);
    }
    QuartersSum(Q.InFlight(s), s.queued);
  }

  lemma SumOfTurns<T>(image: Image<T>, p: Point, clicks: seq<int>, committed: int, rest: int)
    requires image.Valid() && AllQuarters(clicks) && QuarterMultiple(committed) && QuarterMultiple(rest)
    requires SameAngle(Sum(clicks), committed + rest)
    ensures TurnBy(TurnBy(image, committed), rest) == OneByOne(image, clicks)
    ensures TurnPointBy(TurnPointBy(p, committed), rest) == PointOneByOne(p, clicks)
  {
    OneByOneIsSum(image, p, clicks);
    TurnBySum(image, committed, rest);
    TurnBySame(image, Sum(clicks), committed + rest);
    TurnPointBySum(p, committed, rest);
    TurnPointBySame(p, Sum(clicks), committed + rest);
  }

  /** In particular a queue at rest without an error leaves the markers that one click at
      a time would have left, and in a lossless format the photo. */
  lemma AtRestNothingIsMissing<B(!new), T, H>(c: Codec<B, T, H>, format: iset<B>, first: Server<B>, events: seq<Event>)
    requires QuarterClicks(events) && Save(Lost) !in events
    requires var q := Run(c, first, events).queue; q.flight.None? && !q.timer && !q.failed
    ensures AllQuarters(Clicks(events))
    ensures var server := Run(c, first, events).server;
      && |server.markers| == |first.markers|
      && forall i :: 0 <= i < |first.markers| ==> server.markers[i] == PointOneByOne(first.markers[i], Clicks(events))
    ensures Lossless(c, format) && first.file in format ==>
      c.view(first.file).Valid() && c.view(Run(c, first, events).server.file) == OneByOne(c.view(first.file), Clicks(events))
  {
    var w := Run(c, first, events);
    RestIsEmpty(c, first, events);
    CoalescingPreservesMarkers(c, first, events);
    RestMarkers(first, w, Clicks(events));
    if Lossless(c, format) && first.file in format {
      CoalescingPreservesMeaning(c, format, first, events);
      RestPixels(c, first, w, Clicks(events));
    }
  }

  lemma RestIsEmpty<B, T, H>(c: Codec<B, T, H>, first: Server<B>, events: seq<Event>)
    requires QuarterClicks(events) && Save(Lost) !in events
    requires var q := Run(c, first, events).queue; q.flight.None? && !q.timer && !q.failed
    ensures Outstanding(Run(c, first, events).queue) == 0
  {
    RunKeeps(c, first, events);
  }

  lemma RestMarkers<B, H>(first: Server<B>, w: World<B, H>, clicks: seq<int>)
    requires MarkersMean(first, w, clicks) && Outstanding(w.queue) == 0
    ensures |w.server.markers| == |first.markers|
    ensures forall i :: 0 <= i < |first.markers| ==> w.server.markers[i] == PointOneByOne(first.markers[i], clicks)
  {
    assert Quarters(0) == 0;
  }

  lemma RestPixels<B, T, H>(c: Codec<B, T, H>, first: Server<B>, w: World<B, H>, clicks: seq<int>)
    requires PixelsMean(c, first, w, clicks) && Outstanding(w.queue) == 0
    ensures c.view(w.server.file) == OneByOne(c.view(first.file), clicks)
  {
    NoTurn(c.view(w.server.file));
  }

  lemma NoTurn<T>(image: Image<T>)
    requires image.Valid()
    ensures QuarterMultiple(0) && TurnBy(image, 0) == image
  {
    assert Quarters(0) == 0;
  }

  // ----- an answer that does not reach the client

  /** What a retry makes of the photo: turned again, unless that is refused. */
  function Repeated<B, T, H>(c: Codec<B, T, H>, server: Server<B>, degrees: int): Server<B> {
    match Apply(c, server, degrees)
    case None => server
    case Some(again) => again
  }

  /** The client repeats what it believes outstanding, because an answer was lost.
      The server applies it on top of the committed rotation if and only if the
      rotated file has the hash of the original, something is outstanding, and the
      rotated file can be rotated again; otherwise the photo keeps the one rotation. */
  lemma LostAnswer<B, T, H>(c: Codec<B, T, H>, first: Server<B>, w: World<B, H>)
    requires Inv(c, first, w) && w.queue.flight.Some? && Apply(c, w.server, w.queue.flight.value).Some?
    ensures var once := Step(c, w, Save(Lost));
      var again := Step(c, Step(c, once, Retry), Save(Answered));
      var rest := Normalize(w.queue.queued + w.queue.flight.value);
      && Some(once.server) == Apply(c, w.server, w.queue.flight.value)
      && (rest != 0 && c.hash(once.server.file) == c.hash(w.server.file) ==>
        again.server == Repeated(c, once.server, if rest == 270 then -90 else rest))
      && (rest == 0 || c.hash(once.server.file) != c.hash(w.server.file) ==>
        again.server == once.server)
      && (rest != 0 && c.hash(once.server.file) != c.hash(w.server.file) ==>
        again.queue.failed && again.queue.queued == rest)
  {
    var rest := Normalize(w.queue.queued + w.queue.flight.value);
    LostStep(c, w, rest);
    RepeatedRest(c, Step(c, w, Save(Lost)), rest);
  }

  /** The rotation is committed, and the client takes it for failed. */
  lemma LostStep<B, T, H>(c: Codec<B, T, H>, w: World<B, H>, rest: int)
    requires w.queue.flight.Some? && w.queue.current == c.hash(w.server.file) && Apply(c, w.server, w.queue.flight.value).Some?
    requires rest == Normalize(w.queue.queued + w.queue.flight.value)
    ensures 0 <= rest < 360
    ensures var once := Step(c, w, Save(Lost));
      && Some(once.server) == Apply(c, w.server, w.queue.flight.value)
      && once.queue.flight.None? && once.queue.queued == rest && once.queue.current == w.queue.current
  {
    NormalizeSameAngle(w.queue.queued + w.queue.flight.value);
    RejectedQueue(w.queue, rest);
  }

  /** A retry of `rest` against a server that may have moved on. */
  lemma RepeatedRest<B, T, H>(c: Codec<B, T, H>, w: World<B, H>, rest: int)
    requires 0 <= rest < 360 && w.queue.flight.None? && w.queue.queued == rest
    ensures var again := Step(c, Step(c, w, Retry), Save(Answered));
      && (rest != 0 && w.queue.current == c.hash(w.server.file) ==>
        again.server == Repeated(c, w.server, if rest == 270 then -90 else rest))
      && (rest == 0 || w.queue.current != c.hash(w.server.file) ==> again.server == w.server)
      && (rest != 0 && w.queue.current != c.hash(w.server.file) ==> again.queue.failed && again.queue.queued == rest)
  {
    if rest != 0 {
      RetriedQueue(w.queue, rest);
      RestAgain(rest);
      RejectedQueue(Q.Step(w.queue, Q.Retry), rest);
    }
  }

  lemma RejectedQueue<H>(q: Q.State<H>, rest: int)
    requires q.flight.Some? && rest == Normalize(q.queued + q.flight.value)
    ensures var r := Q.Step(q, Q.Reject);
      r.queued == rest && r.flight.None? && r.failed && r.current == q.current && !r.timer
  {
  }

  lemma RetriedQueue<H>(q: Q.State<H>, rest: int)
    requires q.flight.None? && q.queued == rest && rest != 0
    ensures var r := Q.Step(q, Q.Retry);
      r.queued == 0 && r.flight == Some(if rest == 270 then -90 else rest) && r.current == q.current
  {
  }

  lemma RestAgain(rest: int)
    requires 0 <= rest < 360
    ensures Normalize(if rest == 270 then -90 else rest) == rest
  {
    NormalizeIsResidue(if rest == 270 then -90 else rest);
  }

  /** A photo of one colour in both directions looks and hashes the same when turned. */
  const PLAIN: Codec<int, int, int> := Codec(_ => Image(1, 1, [[7]]), (b, _) => Some(b), b => b)

  const MARKED := Server(0, [Point(0.0, 0.0)])

  const ONE_CLICK := [Click(90), TimerFires, Save(Lost), Retry, Save(Answered)]

  lemma {:induction false} OnePixel(k: nat)
    ensures Turn(Image(1, 1, [[7]]), k) == Image(1, 1, [[7]])
  {
    if k > 0 {
      OnePixel(k - 1);
      SameImage(Clockwise(Image(1, 1, [[7]])), Image(1, 1, [[7]]));
    }
  }

  lemma PlainIsLossless()
    ensures Lossless(PLAIN, iset{0})
  {
    forall b, degrees | b in iset{0} && Legal(degrees) ensures Formats.TurnsTrue(PLAIN.view, PLAIN.rotate, iset{0}, b, degrees) {
      OnePixel(Quarters(degrees));
    }
  }

  /** A first click, and the timer. */
  lemma ClickSent<B, T, H>(c: Codec<B, T, H>, w: World<B, H>)
    requires w.queue == Q.Initial(w.queue.current)
    ensures var x := Step(c, Step(c, w, Click(90)), TimerFires);
      && x.queue.flight == Some(90) && x.queue.queued == 0 && !x.queue.timer && x.queue.current == w.queue.current
      && x.server == w.server
  {
    NormalizeIsResidue(90);
  }

  /** The answer to it is lost, and the user retries. */
  lemma LostAndRetried<B, T, H>(c: Codec<B, T, H>, w: World<B, H>, server: Server<B>)
    requires w.queue.flight == Some(90) && w.queue.queued == 0 && w.queue.current == c.hash(w.server.file)
    requires Apply(c, w.server, 90) == Some(server)
    ensures var x := Step(c, Step(c, w, Save(Lost)), Retry);
      && x.queue.flight == Some(90) && x.queue.queued == 0 && !x.queue.timer && !x.queue.failed
      && x.queue.current == w.queue.current && x.server == server
  {
    NormalizeIsResidue(90);
    RejectedQueue(w.queue, 90);
    RetriedQueue(Q.Step(w.queue, Q.Reject), 90);
  }

  lemma AnswerRests<B, T, H>(c: Codec<B, T, H>, w: World<B, H>, server: Server<B>)
    requires w.queue.flight == Some(90) && w.queue.queued == 0 && !w.queue.timer && !w.queue.failed
    requires w.queue.current == c.hash(w.server.file) && Apply(c, w.server, 90) == Some(server)
    ensures var x := Step(c, w, Save(Answered));
      x.queue.flight.None? && x.queue.queued == 0 && !x.queue.timer && !x.queue.failed && x.server == server
  {
  }

  lemma RunNext<B, T, H>(c: Codec<B, T, H>, first: Server<B>, events: seq<Event>, n: nat)
    requires n < |events|
    ensures Run(c, first, events[..n + 1]) == Step(c, Run(c, first, events[..n]), events[n])
  {
    assert events[..n + 1][..n] == events[..n];
  }

  /** It happens: one click and a lost answer leave a marker turned twice, on a photo in a
      lossless format, and the queue is at rest without an error. */
  lemma LostAnswerTurnsTwice()
    ensures Lossless(PLAIN, iset{MARKED.file}) && Clicks(ONE_CLICK) == [90]
    ensures var w := Run(PLAIN, MARKED, ONE_CLICK);
      && w.queue.flight.None? && w.queue.queued == 0 && !w.queue.timer && !w.queue.failed
      && w.server.markers == [TurnPoint(MARKED.markers[0], 2)]
  {
    PlainIsLossless();
    OneClickCounts();
    PlainTurns();
    AllFive();
    var once, twice := Server(0, [Point(1.0, 0.0)]), Server(0, [Point(1.0, 1.0)]);
    ClickSent(PLAIN, Run(PLAIN, MARKED, []));
    LostAndRetried(PLAIN, Run(PLAIN, MARKED, ONE_CLICK[..2]), once);
    AnswerRests(PLAIN, Run(PLAIN, MARKED, ONE_CLICK[..4]), twice);
    TurnPointUnfolded(MARKED.markers[0]);
  }

  lemma AllFive()
    ensures Run(PLAIN, MARKED, ONE_CLICK[..2]) == Step(PLAIN, Step(PLAIN, Run(PLAIN, MARKED, []), Click(90)), TimerFires)
    ensures Run(PLAIN, MARKED, ONE_CLICK[..4]) == Step(PLAIN, Step(PLAIN, Run(PLAIN, MARKED, ONE_CLICK[..2]), Save(Lost)), Retry)
    ensures Run(PLAIN, MARKED, ONE_CLICK) == Step(PLAIN, Run(PLAIN, MARKED, ONE_CLICK[..4]), Save(Answered))
  {
    assert ONE_CLICK[..0] == [] && ONE_CLICK[..5] == ONE_CLICK;
    RunNext(PLAIN, MARKED, ONE_CLICK, 0);
    RunNext(PLAIN, MARKED, ONE_CLICK, 1);
    RunNext(PLAIN, MARKED, ONE_CLICK, 2);
    RunNext(PLAIN, MARKED, ONE_CLICK, 3);
    RunNext(PLAIN, MARKED, ONE_CLICK, 4);
  }

  lemma PlainTurns()
    ensures Apply(PLAIN, MARKED, 90) == Some(Server(0, [Point(1.0, 0.0)]))
    ensures Apply(PLAIN, Server(0, [Point(1.0, 0.0)]), 90) == Some(Server(0, [Point(1.0, 1.0)]))
  {
    assert Apply(PLAIN, MARKED, 90).value.markers == [Point(1.0, 0.0)];
    assert Apply(PLAIN, Server(0, [Point(1.0, 0.0)]), 90).value.markers == [Point(1.0, 1.0)];
  }

  lemma OneClickCounts()
    ensures Clicks(ONE_CLICK) == [90]
  {
    assert ONE_CLICK[..4][..3] == ONE_CLICK[..3] && ONE_CLICK[..3][..2] == ONE_CLICK[..2] && ONE_CLICK[..2][..1] == ONE_CLICK[..1];
    assert Clicks(ONE_CLICK[..1]) == [90] by {
      assert ONE_CLICK[..1][..0] == [];
    }
    assert Clicks(ONE_CLICK[..3]) == Clicks(ONE_CLICK[..2]) + [] == Clicks(ONE_CLICK[..1]) + [] + [];
  }
}
