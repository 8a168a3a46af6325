/** The browser's rotation queue: clicks are summed, sent after a pause as one net
    angle, and kept through failures. */
module RotationQueue {
  import opened Common
  import opened Turns

  /** What the queue does to the outside: a save request, the `onSaved` callback and
      the `onChange` callback. */
  datatype Effect<P> =
    | Saves(photo: P, degrees: int)
    | Saved(photo: P)
    | Changed(preview: int, busy: bool, failed: bool)

  /** The variables of the closure. `flight` carries the angle being saved. */
  datatype State<P> = State(
    current: P, queued: int, preview: int, timer: bool,
    flight: Option<int>, failed: bool, disposed: bool, log: seq<Effect<P>>)

  /** A click, the timer, the two outcomes of a save, and the two other calls. */
  datatype Event<P> =
    | Click(degrees: int) | TimerFires | Retry | Dispose | Resolve(photo: P) | Reject

  function Initial<P>(photo: P): State<P> {
    State(photo, 0, 0, false, None, false, false, [])
  }

  function Notify<P>(s: State<P>): State<P> {
    if s.disposed then s
    else s.(log := s.log + [Changed(s.preview, s.flight.Some? || s.queued != 0, s.failed)])
  }

  function Finish<P>(s: State<P>): State<P> {
    if s.flight.None? && s.queued == 0
    then Notify(s.(preview := 0, log := s.log + [Saved(s.current)]))
    else Notify(s)
  }

  function Flush<P>(s: State<P>): State<P> {
    var s := s.(timer := false);
    if s.flight.Some? || s.queued == 0 then s
    else
      var degrees := if s.queued == 270 then -90 else s.queued;
      var s := Notify(s.(queued := 0, flight := Some(degrees), failed := false));
      s.(log := s.log + [Saves(s.current, degrees)])
  }

  /** The end of `flush`, after the save has settled. */
  function Settle<P>(s: State<P>): State<P> {
    var s := s.(flight := None);
    if !s.failed && s.queued != 0 && !s.timer then Flush(s) else Finish(s)
  }

  function Clicked<P>(s: State<P>, queued: int, preview: int): State<P> {
    var s := s.(queued := queued, preview := preview, failed := false, timer := queued != 0);
    if s.flight.None? && queued == 0 then Finish(s) else Notify(s)
  }

  predicate Enabled<P>(s: State<P>, e: Event<P>) {
    match e
    case TimerFires => s.timer
    case Resolve(_) => s.flight.Some?
    case Reject => s.flight.Some?
    case _ => true
  }

  function Step<P>(s: State<P>, e: Event<P>): State<P> {
    if !Enabled(s, e) then s else
      match e
      case Click(degrees) => Clicked(s, Normalize(s.queued + degrees), Normalize(s.preview + degrees))
      case TimerFires => Flush(s)
      case Retry => Flush(s)
      case Dispose =>
        var s := s.(disposed := true, timer := false);
        if !s.failed then Flush(s) else s
      case Resolve(photo) => Settle(s.(current := photo))
      case Reject =>
        Settle(s.(timer := false, queued := Normalize(s.queued + s.flight.value), failed := true))
  }

  // ----- what has happened in a run, counted from its events

  /** The total clicked, the total whose save succeeded, the total clicked when
      `onSaved` was last called, and how each save ended: with a photo or with none. */
  datatype Ledger<P> = Ledger(clicked: int, committed: int, acknowledged: int, outcomes: seq<Option<P>>)

  /** The photo that the last successful save returned. */
  function Baseline<P>(photo: P, outcomes: seq<Option<P>>): P {
    if outcomes == [] then photo
    else
      var last := outcomes[|outcomes| - 1];
      if last.Some? then last.value else Baseline(photo, outcomes[..|outcomes| - 1])
  }

  function SavedCount<P>(log: seq<Effect<P>>): nat {
    if log == [] then 0 else SavedCount(log[..|log| - 1]) + if log[|log| - 1].Saved? then 1 else 0
  }

  /** The save requests, in the order they were sent. */
  function Requests<P>(log: seq<Effect<P>>): seq<(P, int)> {
    if log == [] then []
    else
      var last := log[|log| - 1];
      Requests(log[..|log| - 1]) + if last.Saves? then [(last.photo, last.degrees)] else []
  }

  /** How the event ends a save, if it ends one. */
  function Settled<P>(s: State<P>, e: Event<P>): seq<Option<P>> {
    if !Enabled(s, e) then []
    else
      match e
      case Resolve(photo) => [Some(photo)]
      case Reject => [None]
      case _ => []
  }

  function Record<P>(l: Ledger<P>, s: State<P>, e: Event<P>): Ledger<P> {
    var clicked := if e.Click? then l.clicked + e.degrees else l.clicked;
    Ledger(clicked,
      if Enabled(s, e) && e.Resolve? then l.committed + s.flight.value else l.committed,
      if SavedCount(Step(s, e).log) > SavedCount(s.log) then clicked else l.acknowledged,
      l.outcomes + Settled(s, e))
  }

  function Run<P>(photo: P, events: seq<Event<P>>): (State<P>, Ledger<P>) {
    if events == [] then (Initial(photo), Ledger(0, 0, 0, []))
    else
      var (s, l) := Run(photo, events[..|events| - 1]);
      var e := events[|events| - 1];
      (Step(s, e), Record(l, s, e))
  }

  function InFlight<P>(s: State<P>): int {
    if s.flight.Some? then s.flight.value else 0
  }

  /** The sums, up to whole turns, whatever the state of the timer. */
  ghost predicate Sums(queued: int, preview: int, flight: int, clicked: int, committed: int, acknowledged: int) {
    && 0 <= queued < 360
    && 0 <= preview < 360
    && SameAngle(clicked, committed + flight + queued)
    && SameAngle(preview, clicked - acknowledged)
  }

  ghost predicate Balanced<P>(s: State<P>, clicked: int, committed: int, acknowledged: int) {
    Sums(s.queued, s.preview, InFlight(s), clicked, committed, acknowledged)
  }

  /** Timer, error and requests. */
  ghost predicate Flags<P>(s: State<P>, outcomes: nat) {
    && (s.timer ==> s.queued != 0)
    && (s.flight.Some? || s.timer ==> !s.failed)
    && (s.flight.None? && !s.timer && !s.failed ==> s.queued == 0)
    && (s.flight.None? && s.queued == 0 ==> s.preview == 0)
    && |Requests(s.log)| == outcomes + if s.flight.Some? then 1 else 0
  }

  /** What every event keeps, whatever the angles of the clicks. */
  ghost predicate Inv<P>(s: State<P>, l: Ledger<P>) {
    Balanced(s, l.clicked, l.committed, l.acknowledged) && Flags(s, |l.outcomes|)
  }

  lemma CountAppend<P>(log: seq<Effect<P>>, e: Effect<P>)
    ensures SavedCount(log + [e]) == SavedCount(log) + if e.Saved? then 1 else 0
    ensures Requests(log + [e]) == Requests(log) + if e.Saves? then [(e.photo, e.degrees)] else []
  {
    assert (log + [e])[..|log|] == log;
  }

  /** `Notify` only informs the view. */
  lemma NotifyCounts<P>(s: State<P>)
    ensures SavedCount(Notify(s).log) == SavedCount(s.log)
    ensures Requests(Notify(s).log) == Requests(s.log)
  {
    if !s.disposed {
      CountAppend(s.log, Changed(s.preview, s.flight.Some? || s.queued != 0, s.failed));
    }
  }

  lemma FinishCounts<P>(s: State<P>)
    ensures SavedCount(Finish(s).log) == SavedCount(s.log) + if s.flight.None? && s.queued == 0 then 1 else 0
    ensures Requests(Finish(s).log) == Requests(s.log)
  {
    CountAppend(s.log, Saved(s.current));
    NotifyCounts(s);
    NotifyCounts(s.(preview := 0, log := s.log + [Saved(s.current)]));
  }

  /** The log of a flush that sends. */
  lemma SendCounts<P>(t: State<P>, photo: P, degrees: int)
    ensures var log := Notify(t).log + [Saves(photo, degrees)];
      SavedCount(log) == SavedCount(t.log) && Requests(log) == Requests(t.log) + [(photo, degrees)]
  {
    NotifyCounts(t);
    CountAppend(Notify(t).log, Saves(photo, degrees));
  }

  lemma FlushCounts<P>(s: State<P>)
    ensures SavedCount(Flush(s).log) == SavedCount(s.log)
    ensures Requests(Flush(s).log) == Requests(s.log) +
      if s.flight.None? && s.queued != 0 then [(s.current, if s.queued == 270 then -90 else s.queued)] else []
  {
    if s.flight.None? && s.queued != 0 {
      var degrees := if s.queued == 270 then -90 else s.queued;
      SendCounts(s.(timer := false, queued := 0, flight := Some(degrees), failed := false), s.current, degrees);
    } else {
      assert Requests(s.log) + [] == Requests(s.log);
    }
  }

  lemma FlushBalanced<P>(s: State<P>, clicked: int, committed: int, acknowledged: int)
    requires Balanced(s, clicked, committed, acknowledged)
    ensures Balanced(Flush(s), clicked, committed, acknowledged)
  {
  }

  /** `onSaved` is called only when everything clicked is committed. */
  lemma FinishBalanced<P>(s: State<P>, clicked: int, committed: int, acknowledged: int)
    requires Balanced(s, clicked, committed, acknowledged)
    ensures Balanced(Finish(s), clicked, committed,
      if SavedCount(Finish(s).log) > SavedCount(s.log) then clicked else acknowledged)
  {
    FinishCounts(s);
    if s.flight.None? && s.queued == 0 {
      NothingSince(s.preview, clicked, committed, acknowledged);
    }
  }

  lemma NothingSince(preview: int, clicked: int, committed: int, acknowledged: int)
    requires Sums(0, preview, 0, clicked, committed, acknowledged)
    ensures Sums(0, 0, 0, clicked, committed, clicked)
  {
  }

  /** The flags at the end of a save: after a failure the timer is off. */
  lemma SettleFlags<P>(s: State<P>, outcomes: nat)
    requires if s.failed then !s.timer else s.timer ==> s.queued != 0
    requires |Requests(s.log)| == outcomes
    ensures Flags(Settle(s), outcomes)
  {
    FlushCounts(s.(flight := None));
    FinishCounts(s.(flight := None));
  }

  lemma SettleBalanced<P>(s: State<P>, clicked: int, committed: int, acknowledged: int)
    requires Balanced(s.(flight := None), clicked, committed, acknowledged)
    ensures Balanced(Settle(s), clicked, committed,
      if SavedCount(Settle(s).log) > SavedCount(s.log) then clicked else acknowledged)
  {
    var t := s.(flight := None);
    FlushBalanced(t, clicked, committed, acknowledged);
    FlushCounts(t);
    FinishBalanced(t, clicked, committed, acknowledged);
  }

  /** Replacing a part of a sum by its residue changes nothing, up to whole turns. */
  lemma ResidueInSum(total: int, rest: int, part: int, added: int)
    requires SameAngle(total, rest + part)
    ensures 0 <= Normalize(part + added) < 360
    ensures SameAngle(total + added, rest + Normalize(part + added))
  {
    var q := Normalize(part + added);
    NormalizeSameAngle(part + added);
    SameAngleSum(rest, rest, part + added, q);
    SameAngleSum(total, rest + part, added, added);
  }

  lemma ClickSums(queued: int, preview: int, flight: int, clicked: int, committed: int, acknowledged: int, degrees: int)
    requires Sums(queued, preview, flight, clicked, committed, acknowledged)
    ensures Sums(Normalize(queued + degrees), Normalize(preview + degrees), flight, clicked + degrees, committed, acknowledged)
  {
    ResidueInSum(clicked, committed + flight, queued, degrees);
    ResidueInSum(clicked - acknowledged, 0, preview, degrees);
  }

  lemma ClickBalanced<P>(s: State<P>, l: Ledger<P>, degrees: int)
    requires Inv(s, l)
    ensures Balanced(s.(queued := Normalize(s.queued + degrees), preview := Normalize(s.preview + degrees)),
      l.clicked + degrees, l.committed, l.acknowledged)
  {
    ClickSums(s.queued, s.preview, InFlight(s), l.clicked, l.committed, l.acknowledged, degrees);
  }

  /** A click that leaves nothing to do. */
  lemma ClickFinishes<P>(t: State<P>, l: Ledger<P>)
    requires Balanced(t, l.clicked, l.committed, l.acknowledged)
    requires t.flight.None? && t.queued == 0 && !t.timer && |Requests(t.log)| == |l.outcomes|
    ensures Inv(Finish(t), l.(acknowledged := if SavedCount(Finish(t).log) > SavedCount(t.log) then l.clicked else l.acknowledged))
  {
    FinishCounts(t);
  }

  /** A click that waits for the timer or for the save in flight. */
  lemma ClickWaits<P>(t: State<P>, l: Ledger<P>)
    requires Balanced(t, l.clicked, l.committed, l.acknowledged)
    requires (t.flight.Some? || t.queued != 0) && !t.failed && t.timer == (t.queued != 0)
    requires |Requests(t.log)| == |l.outcomes| + if t.flight.Some? then 1 else 0
    ensures Inv(Notify(t), l) && SavedCount(Notify(t).log) == SavedCount(t.log)
  {
    NotifyCounts(t);
  }

  /** A click, whatever the two residues are, as long as they are right. */
  lemma ClickEnds<P>(s: State<P>, l: Ledger<P>, clicked: int, queued: int, preview: int)
    requires Balanced(s.(queued := queued, preview := preview), clicked, l.committed, l.acknowledged)
    requires |Requests(s.log)| == |l.outcomes| + if s.flight.Some? then 1 else 0
    ensures var r := Clicked(s, queued, preview);
      Inv(r, l.(clicked := clicked, acknowledged := if SavedCount(r.log) > SavedCount(s.log) then clicked else l.acknowledged))
  {
    var t := s.(queued := queued, preview := preview, failed := false, timer := queued != 0);
    if t.flight.None? && queued == 0 {
      ClickFinishes(t, l.(clicked := clicked));
    } else {
      ClickWaits(t, l.(clicked := clicked));
    }
  }

  lemma ClickKeeps<P>(s: State<P>, l: Ledger<P>, degrees: int)
    requires Inv(s, l)
    ensures Inv(Step(s, Click(degrees)), Record(l, s, Click(degrees)))
  {
    ClickBalanced(s, l, degrees);
    ClickEnds(s, l, l.clicked + degrees, Normalize(s.queued + degrees), Normalize(s.preview + degrees));
    ClickRecorded(s, l, degrees);
  }

  lemma ClickRecorded<P>(s: State<P>, l: Ledger<P>, degrees: int)
    ensures var r := Clicked(s, Normalize(s.queued + degrees), Normalize(s.preview + degrees));
      && Step(s, Click(degrees)) == r
      && Record(l, s, Click(degrees)) == l.(clicked := l.clicked + degrees,
          acknowledged := if SavedCount(r.log) > SavedCount(s.log) then l.clicked + degrees else l.acknowledged)
  {
    assert l.outcomes + [] == l.outcomes;
  }

  /** What only flushes leaves the clicks and the answers alone. */
  lemma FlushRecorded<P>(s: State<P>, l: Ledger<P>, e: Event<P>)
    requires e.TimerFires? || e.Retry? || e.Dispose?
    ensures Record(l, s, e) == l
  {
    FlushCounts(s);
    FlushCounts(s.(disposed := true, timer := false));
    assert l.outcomes + [] == l.outcomes;
  }

  lemma FlushKeeps<P>(s: State<P>, l: Ledger<P>, e: Event<P>)
    requires Inv(s, l) && (e.TimerFires? || e.Retry? || e.Dispose?)
    ensures Inv(Step(s, e), Record(l, s, e))
  {
    var t := if e.Dispose? then s.(disposed := true, timer := false) else s;
    FlushBalanced(t, l.clicked, l.committed, l.acknowledged);
    FlushCounts(t);
    FlushRecorded(s, l, e);
  }

  /** The end of a successful save. */
  lemma ResolveEnds<P>(t: State<P>, l: Ledger<P>, degrees: int)
    requires Balanced(t.(flight := None), l.clicked, l.committed + degrees, l.acknowledged)
    requires !t.failed && (t.timer ==> t.queued != 0) && |Requests(t.log)| == |l.outcomes| + 1
    ensures Inv(Settle(t), l.(committed := l.committed + degrees, outcomes := l.outcomes + [Some(t.current)],
      acknowledged := if SavedCount(Settle(t).log) > SavedCount(t.log) then l.clicked else l.acknowledged))
  {
    SettleBalanced(t, l.clicked, l.committed + degrees, l.acknowledged);
    SettleFlags(t, |l.outcomes| + 1);
  }

  lemma ResolveKeeps<P>(s: State<P>, l: Ledger<P>, photo: P)
    requires Inv(s, l) && s.flight.Some?
    ensures Inv(Step(s, Resolve(photo)), Record(l, s, Resolve(photo)))
  {
    ResolveEnds(s.(current := photo), l, s.flight.value);
  }

  /** The end of a failed save, on any queue whose sums are right. */
  lemma RejectEnds<P>(t: State<P>, l: Ledger<P>)
    requires Balanced(t.(flight := None), l.clicked, l.committed, l.acknowledged)
    requires t.failed && !t.timer && |Requests(t.log)| == |l.outcomes| + 1
    ensures Inv(Settle(t), l.(outcomes := l.outcomes + [None],
      acknowledged := if SavedCount(Settle(t).log) > SavedCount(t.log) then l.clicked else l.acknowledged))
  {
    SettleBalanced(t, l.clicked, l.committed, l.acknowledged);
    SettleFlags(t, |l.outcomes| + 1);
  }

  lemma RejectKeeps<P>(s: State<P>, l: Ledger<P>)
    requires Inv(s, l) && s.flight.Some?
    ensures Inv(Step(s, Reject), Record(l, s, Reject))
  {
    RejectSums(s.queued, s.preview, s.flight.value, l.clicked, l.committed, l.acknowledged);
    RejectEnds(s.(timer := false, queued := Normalize(s.queued + s.flight.value), failed := true), l);
    RejectRecorded(s, l);
  }

  /** The angle of a failed save goes back to the queue. */
  lemma RejectSums(queued: int, preview: int, flight: int, clicked: int, committed: int, acknowledged: int)
    requires Sums(queued, preview, flight, clicked, committed, acknowledged)
    ensures Sums(Normalize(queued + flight), preview, 0, clicked, committed, acknowledged)
  {
    ResidueInSum(clicked, committed, queued + flight, 0);
  }

  lemma RejectRecorded<P>(s: State<P>, l: Ledger<P>)
    requires s.flight.Some?
    ensures var t := s.(timer := false, queued := Normalize(s.queued + s.flight.value), failed := true);
      && Step(s, Reject) == Settle(t)
      && Record(l, s, Reject) == l.(outcomes := l.outcomes + [None],
        acknowledged := if SavedCount(Settle(t).log) > SavedCount(t.log) then l.clicked else l.acknowledged)
  {
  }

  lemma StepKeeps<P>(s: State<P>, l: Ledger<P>, e: Event<P>)
    requires Inv(s, l)
    ensures Inv(Step(s, e), Record(l, s, e))
  {
    if Enabled(s, e) {
      match e
      case Click(degrees) => ClickKeeps(s, l, degrees);
      case Resolve(photo) => ResolveKeeps(s, l, photo);
      case Reject => RejectKeeps(s, l);
      case _ => FlushKeeps(s, l, e);
    }
  }

  /** Conservation over every run: what was clicked is committed, in flight or
      queued, up to whole turns; the preview is what was clicked since `onSaved`;
      an idle queue without an error holds nothing back; and at most one save is
      ever open. */
  lemma {:induction false} RunConserves<P>(photo: P, events: seq<Event<P>>)
    ensures var (s, l) := Run(photo, events); Inv(s, l)
  {
    if events != [] {
      var (s, l) := Run(photo, events[..|events| - 1]);
      RunConserves(photo, events[..|events| - 1]);
      StepKeeps(s, l, events[|events| - 1]);
    }
  }

  // ----- which requests are sent

  /** Each request starts from the photo that the saves before it left behind, sends
      a legal angle, and the open request is the one in flight. */
  ghost predicate Chained<P>(s: State<P>, outcomes: seq<Option<P>>, photo: P) {
    && s.current == Baseline(photo, outcomes)
    && QuarterMultiple(s.queued)
    && (s.flight.Some? ==> Requests(s.log) != [] && Requests(s.log)[|Requests(s.log)| - 1] == (s.current, s.flight.value))
    && |Requests(s.log)| == |outcomes| + (if s.flight.Some? then 1 else 0)
    && forall i :: 0 <= i < |Requests(s.log)| ==>
      && Legal(Requests(s.log)[i].1)
      && Requests(s.log)[i].0 == Baseline(photo, outcomes[..i])
  }

  /** The only four residues of whole quarter turns. */
  lemma QuarterResidues(queued: int)
    requires 0 < queued < 360 && QuarterMultiple(queued)
    ensures Legal(if queued == 270 then -90 else queued)
  {
  }

  lemma NormalizeQuarters(a: int, b: int)
    requires QuarterMultiple(a) && QuarterMultiple(b)
    ensures QuarterMultiple(Normalize(a + b))
  {
    QuartersSum(a, b);
    NormalizeSameAngle(a + b);
    QuartersSame(a + b, Normalize(a + b));
  }

  lemma FlushChained<P>(s: State<P>, outcomes: seq<Option<P>>, photo: P)
    requires Chained(s, outcomes, photo) && 0 <= s.queued < 360
    ensures Chained(Flush(s), outcomes, photo)
  {
    FlushCounts(s);
    if s.flight.None? && s.queued != 0 {
      QuarterResidues(s.queued);
      assert outcomes[..|outcomes|] == outcomes;
    }
  }

  lemma SettleChained<P>(s: State<P>, outcomes: seq<Option<P>>, photo: P)
    requires Chained(s.(flight := None), outcomes, photo) && 0 <= s.queued < 360
    ensures Chained(Settle(s), outcomes, photo)
  {
    FlushChained(s.(flight := None), outcomes, photo);
    FinishCounts(s.(flight := None));
  }

  /** One more outcome moves no earlier request. */
  lemma OutcomeChained<P>(s: State<P>, outcomes: seq<Option<P>>, photo: P, t: State<P>, outcome: Option<P>)
    requires Chained(s, outcomes, photo) && s.flight.Some?
    requires t.log == s.log && t.flight.None? && QuarterMultiple(t.queued)
    requires t.current == if outcome.Some? then outcome.value else s.current
    ensures Chained(t, outcomes + [outcome], photo)
  {
    var longer := outcomes + [outcome];
    assert longer[..|outcomes|] == outcomes;
    forall i | 0 <= i < |Requests(t.log)|
      ensures Requests(t.log)[i].0 == Baseline(photo, longer[..i])
    {
      assert longer[..i] == outcomes[..i];
    }
  }

  lemma ClickChained<P>(s: State<P>, outcomes: seq<Option<P>>, photo: P, queued: int, preview: int)
    requires Chained(s, outcomes, photo) && QuarterMultiple(queued)
    ensures Chained(Clicked(s, queued, preview), outcomes, photo)
  {
    var t := s.(queued := queued, preview := preview, failed := false, timer := queued != 0);
    FinishCounts(t);
    NotifyCounts(t);
  }

  lemma ResolveChained<P>(s: State<P>, outcomes: seq<Option<P>>, photo: P, p: P)
    requires Chained(s, outcomes, photo) && s.flight.Some? && 0 <= s.queued < 360
    ensures Chained(Settle(s.(current := p)), outcomes + [Some(p)], photo)
  {
    OutcomeChained(s, outcomes, photo, s.(current := p, flight := None), Some(p));
    SettleChained(s.(current := p), outcomes + [Some(p)], photo);
  }

  lemma RejectChained<P>(s: State<P>, outcomes: seq<Option<P>>, photo: P, queued: int)
    requires Chained(s, outcomes, photo) && s.flight.Some? && QuarterMultiple(queued) && 0 <= queued < 360
    ensures Chained(Settle(s.(timer := false, queued := queued, failed := true)), outcomes + [None], photo)
  {
    var t := s.(timer := false, queued := queued, failed := true);
    OutcomeChained(s, outcomes, photo, t.(flight := None), None);
    SettleChained(t, outcomes + [None], photo);
  }

  lemma SendChained<P>(s: State<P>, outcomes: seq<Option<P>>, photo: P, e: Event<P>)
    requires Chained(s, outcomes, photo) && 0 <= s.queued < 360 && Enabled(s, e)
    requires e.TimerFires? || e.Retry? || e.Dispose?
    ensures Chained(Step(s, e), outcomes, photo)
  {
    if e.Dispose? {
      FlushChained(s.(disposed := true, timer := false), outcomes, photo);
    } else {
      FlushChained(s, outcomes, photo);
    }
  }

  lemma AnswerChained<P>(s: State<P>, outcomes: seq<Option<P>>, photo: P, e: Event<P>)
    requires Chained(s, outcomes, photo) && 0 <= s.queued < 360 && Enabled(s, e) && (e.Resolve? || e.Reject?)
    ensures Chained(Step(s, e), outcomes + Settled(s, e), photo)
  {
    if e.Resolve? {
      ResolveChained(s, outcomes, photo, e.photo);
    } else {
      RejectAngle(s, outcomes, photo);
      RejectChained(s, outcomes, photo, Normalize(s.queued + s.flight.value));
    }
  }

  lemma StepChained<P>(s: State<P>, outcomes: seq<Option<P>>, photo: P, e: Event<P>)
    requires Chained(s, outcomes, photo) && 0 <= s.queued < 360
    requires e.Click? ==> QuarterMultiple(e.degrees)
    ensures Chained(Step(s, e), outcomes + Settled(s, e), photo)
  {
    assert outcomes + [] == outcomes;
    if Enabled(s, e) {
      match e
      case Click(degrees) =>
        NormalizeQuarters(s.queued, degrees);
        ClickChained(s, outcomes, photo, Normalize(s.queued + degrees), Normalize(s.preview + degrees));
      case Resolve(p) =>
        AnswerChained(s, outcomes, photo, e);
      case Reject =>
        AnswerChained(s, outcomes, photo, e);
      case _ =>
        SendChained(s, outcomes, photo, e);
    }
  }

  lemma RejectAngle<P>(s: State<P>, outcomes: seq<Option<P>>, photo: P)
    requires Chained(s, outcomes, photo) && s.flight.Some?
    ensures var q := Normalize(s.queued + s.flight.value); QuarterMultiple(q) && 0 <= q < 360
  {
    NormalizeQuarters(s.queued, s.flight.value);
    NormalizeSameAngle(s.queued + s.flight.value);
  }

  /** Only an answer replaces the photo. */
  lemma StepCurrent<P>(s: State<P>, e: Event<P>)
    requires Enabled(s, e)
    ensures Step(s, e).current == if e.Resolve? then e.photo else s.current
  {
  }

  /** Over every run of quarter-turn clicks: saves never overlap, each starts from
      the photo that the last successful one returned, and each sends 90, -90 or 180. */
  lemma {:induction false} RunChained<P>(photo: P, events: seq<Event<P>>)
    requires forall e <- events :: e.Click? ==> QuarterMultiple(e.degrees)
    ensures var (s, l) := Run(photo, events); Chained(s, l.outcomes, photo)
  {
    if events != [] {
      var before := events[..|events| - 1];
      var (s, l) := Run(photo, before);
      assert forall e <- before :: e in events;
      RunChained(photo, before);
      RunConserves(photo, before);
      StepChained(s, l.outcomes, photo, events[|events| - 1]);
    }
  }

  // ----- what the view is told

  /** The preview, whether a save is under way or waiting, and whether one failed. */
  function Status<P>(s: State<P>): Effect<P> {
    Changed(s.preview, s.flight.Some? || s.queued != 0, s.failed)
  }

  /** What the view shows: the last status it was told, and before that a fresh queue. */
  function Shown<P>(log: seq<Effect<P>>): Effect<P> {
    if log == [] then Changed(0, false, false)
    else if log[|log| - 1].Changed? then log[|log| - 1]
    else Shown(log[..|log| - 1])
  }

  lemma ShownAppend<P>(log: seq<Effect<P>>, e: Effect<P>)
    ensures Shown(log + [e]) == if e.Changed? then e else Shown(log)
  {
    assert (log + [e])[..|log|] == log;
  }

  /** Since `log` only entries were added that tell of `t`: a status is the one of `t`,
      `onSaved` hands over its photo when nothing is left to do, and a request starts
      the save in flight. Once disposed, no status is told; until then the view shows
      the one of `t`. */
  ghost predicate Tells<P>(log: seq<Effect<P>>, t: State<P>) {
    && |log| <= |t.log| && t.log[..|log|] == log
    && (forall i :: |log| <= i < |t.log| ==> TellsOf(t.log[i], t))
    && (t.disposed || Shown(t.log) == Status(t))
  }

  ghost predicate TellsOf<P>(entry: Effect<P>, t: State<P>) {
    match entry
    case Changed(preview, busy, failed) =>
      && !t.disposed && preview == t.preview && failed == t.failed
      && (busy <==> t.flight.Some? || t.queued != 0)
    case Saved(photo) => photo == t.current && t.flight.None? && t.queued == 0 && t.preview == 0
    case Saves(photo, degrees) => photo == t.current && t.flight == Some(degrees)
  }

  lemma AddedTells<P>(log: seq<Effect<P>>, added: seq<Effect<P>>, t: State<P>)
    requires t.log == log + added && forall i :: 0 <= i < |added| ==> TellsOf(added[i], t)
    requires t.disposed || Shown(t.log) == Status(t)
    ensures Tells(log, t)
  {
    forall i | |log| <= i < |t.log| ensures TellsOf(t.log[i], t) {
      assert t.log[i] == added[i - |log|];
    }
  }

  /** A flush that sends tells the view, whatever it showed before. */
  lemma SendTells<P>(s: State<P>)
    requires s.flight.None? && s.queued != 0
    ensures Tells(s.log, Flush(s))
  {
    var degrees := if s.queued == 270 then -90 else s.queued;
    var t := Flush(s);
    if s.disposed {
      AddedTells(s.log, [Saves(s.current, degrees)], t);
    } else {
      var told := s.log + [Status(t)];
      ShownAppend(s.log, Status(t));
      ShownAppend(told, Saves(s.current, degrees));
      assert t.log == told + [Saves(s.current, degrees)] == s.log + [Status(t), Saves(s.current, degrees)];
      AddedTells(s.log, [Status(t), Saves(s.current, degrees)], t);
    }
  }

  /** One that does not send leaves the status as the view shows it. */
  lemma FlushTells<P>(s: State<P>)
    requires Informed(s)
    ensures Tells(s.log, Flush(s))
  {
    if s.flight.None? && s.queued != 0 {
      SendTells(s);
    }
  }

  lemma FinishTells<P>(s: State<P>)
    ensures Tells(s.log, Finish(s))
  {
    if s.flight.None? && s.queued == 0 {
      var t := s.(preview := 0, log := s.log + [Saved(s.current)]);
      ShownAppend(t.log, Status(t));
    } else {
      ShownAppend(s.log, Status(s));
    }
  }

  lemma SettleTells<P>(s: State<P>)
    ensures Tells(s.log, Settle(s))
  {
    if !s.failed && s.queued != 0 && !s.timer {
      SendTells(s.(flight := None));
    } else {
      FinishTells(s.(flight := None));
    }
  }

  lemma ClickTells<P>(s: State<P>, queued: int, preview: int)
    ensures Tells(s.log, Clicked(s, queued, preview))
  {
    var t := s.(queued := queued, preview := preview, failed := false, timer := queued != 0);
    if t.flight.None? && queued == 0 {
      FinishTells(t);
    } else {
      ShownAppend(t.log, Status(t));
    }
  }

  /** Every event tells the view about the state it leaves, and about no other. */
  lemma StepTells<P>(s: State<P>, e: Event<P>)
    requires Informed(s)
    ensures Tells(s.log, Step(s, e))
  {
    if e.Resolve? && s.flight.Some? {
      SettleTells(s.(current := e.photo));
    } else if e.Reject? && s.flight.Some? {
      SettleTells(s.(timer := false, queued := Normalize(s.queued + s.flight.value), failed := true));
    } else {
      OthersTell(s, e);
    }
  }

  lemma OthersTell<P>(s: State<P>, e: Event<P>)
    requires Informed(s)
    requires s.flight.Some? ==> !e.Resolve? && !e.Reject?
    ensures Tells(s.log, Step(s, e))
  {
    if e.Click? {
      ClickTells(s, Normalize(s.queued + e.degrees), Normalize(s.preview + e.degrees));
    } else if e.Dispose? {
      FlushTells(s.(disposed := true, timer := false));
    } else if Enabled(s, e) {
      FlushTells(s);
    }
  }

  lemma StepDisposes<P>(s: State<P>, e: Event<P>)
    ensures Step(s, e).disposed <==> s.disposed || e.Dispose?
  {
  }

  /** The view, until the queue is disposed, and the state have the same status. */
  ghost predicate Informed<P>(s: State<P>) {
    s.disposed || Shown(s.log) == Status(s)
  }

  lemma {:induction false} RunInforms<P>(photo: P, events: seq<Event<P>>)
    ensures Informed(Run(photo, events).0)
    ensures Run(photo, events).0.disposed <==> Event<P>.Dispose in events
  {
    if events != [] {
      var before, e := events[..|events| - 1], events[|events| - 1];
      RunInforms(photo, before);
      StepTells(Run(photo, before).0, e);
      StepDisposes(Run(photo, before).0, e);
      assert events == before + [e];
    }
  }

  /** Over every run the view shows the preview, the activity and the error of the
      queue as it is, until the queue is disposed; and what each event adds to the log
      tells of the state that it leaves. */
  lemma RunTells<P>(photo: P, events: seq<Event<P>>)
    ensures var s := Run(photo, events).0;
      Event<P>.Dispose in events || Shown(s.log) == Changed(s.preview, s.flight.Some? || s.queued != 0, s.failed)
    ensures events != [] ==> Tells(Run(photo, events[..|events| - 1]).0.log, Run(photo, events).0)
    ensures Run(photo, events).0.disposed <==> Event<P>.Dispose in events
  {
    RunInforms(photo, events);
    if events != [] {
      RunInforms(photo, events[..|events| - 1]);
      StepTells(Run(photo, events[..|events| - 1]).0, events[|events| - 1]);
    }
  }

  // ----- when a save starts, and what an error does

  /** A flush, a disposal without an error, and a successful answer behind which clicks
      wait without a timer. A click and a failure start nothing. */
  predicate Starts<P>(s: State<P>, e: Event<P>) {
    match e
    case Click(_) => false
    case Reject => false
    case TimerFires => s.timer && s.flight.None? && s.queued != 0
    case Retry => s.flight.None? && s.queued != 0
    case Dispose => !s.failed && s.flight.None? && s.queued != 0
    case Resolve(_) => s.flight.Some? && !s.failed && !s.timer && s.queued != 0
  }

  /** What is queued, as the net angle of a request from `photo`. */
  function Next<P>(photo: P, queued: int): seq<(P, int)> {
    [(photo, if queued == 270 then -90 else queued)]
  }

  /** From `log` to `t` one save was requested from `photo`, with all that was queued, if
      one starts; otherwise none. */
  ghost predicate Requested<P>(t: State<P>, log: seq<Effect<P>>, starts: bool, photo: P, queued: int) {
    && Requests(t.log) == Requests(log) + (if starts then [(photo, if queued == 270 then -90 else queued)] else [])
    && (starts ==> t.queued == 0)
  }

  lemma FlushStarts<P>(s: State<P>)
    ensures Requested(Flush(s), s.log, s.flight.None? && s.queued != 0, s.current, s.queued)
  {
    FlushCounts(s);
  }

  lemma ClickStarts<P>(s: State<P>, queued: int, preview: int)
    ensures Requested(Clicked(s, queued, preview), s.log, false, s.current, queued)
  {
    var t := s.(queued := queued, preview := preview, failed := false, timer := queued != 0);
    FinishCounts(t);
    NotifyCounts(t);
    assert Requests(s.log) + [] == Requests(s.log);
  }

  lemma SettleStarts<P>(s: State<P>)
    ensures Requested(Settle(s), s.log, !s.failed && s.queued != 0 && !s.timer, s.current, s.queued)
  {
    FlushStarts(s.(flight := None));
    FinishCounts(s.(flight := None));
    assert Requests(s.log) + [] == Requests(s.log);
  }

  /** A save starts exactly then, with everything that is queued, from the photo that the
      server returned last. */
  lemma StartsIff<P>(s: State<P>, e: Event<P>)
    ensures Requested(Step(s, e), s.log, Starts(s, e), if e.Resolve? then e.photo else s.current, s.queued)
  {
    if e.Resolve? && s.flight.Some? {
      SettleStarts(s.(current := e.photo));
    } else if e.Reject? && s.flight.Some? {
      SettleStarts(s.(timer := false, queued := Normalize(s.queued + s.flight.value), failed := true));
    } else {
      OthersStart(s, e);
    }
  }

  lemma OthersStart<P>(s: State<P>, e: Event<P>)
    requires s.flight.Some? ==> !e.Resolve? && !e.Reject?
    ensures Requested(Step(s, e), s.log, Starts(s, e), s.current, s.queued)
  {
    assert Requests(s.log) + [] == Requests(s.log);
    if e.Click? {
      ClickStarts(s, Normalize(s.queued + e.degrees), Normalize(s.preview + e.degrees));
    } else if e.Dispose? {
      FlushStarts(s.(disposed := true, timer := false));
    } else if Enabled(s, e) {
      FlushStarts(s);
    }
  }

  /** A failure leaves the error and no timer; the next click, or the next start of a
      save, clears it; a click sets the timer exactly when something is queued. */
  lemma StepFails<P>(s: State<P>, e: Event<P>)
    ensures Step(s, e).failed <==> (e.Reject? && s.flight.Some?) || (s.failed && !e.Click? && !Starts(s, e))
    ensures e.Click? ==> (Step(s, e).timer <==> Step(s, e).queued != 0)
    ensures e.TimerFires? || e.Retry? || e.Dispose? || (e.Reject? && s.flight.Some?) ==> !Step(s, e).timer
    ensures e.Resolve? ==> Step(s, e).timer == s.timer
  {
  }

  // ----- the queue empties itself

  /** What happens next when nobody clicks and the server answers with `photo`. */
  function Proceed<P>(s: State<P>, photo: P): Event<P> {
    if s.flight.Some? then Resolve(photo) else TimerFires
  }

  /** One internal step without a failure brings the queue closer to rest. */
  lemma ProceedStep<P>(s: State<P>, l: Ledger<P>, photo: P)
    requires Inv(s, l) && !s.failed
    ensures var e := Proceed(s, photo);
      && Inv(Step(s, e), Record(l, s, e)) && !Step(s, e).failed && Record(l, s, e).clicked == l.clicked
      && Remaining(Step(s, e)) <= if Remaining(s) == 0 then 0 else Remaining(s) - 1
  {
    StepKeeps(s, l, Proceed(s, photo));
  }

  lemma NothingRemains<P>(s: State<P>, l: Ledger<P>)
    requires Inv(s, l) && !s.failed && Remaining(s) == 0
    ensures s.flight.None? && !s.timer && s.queued == 0 && s.preview == 0 && SameAngle(l.clicked, l.committed)
  {
  }

  /** Without a failure the queue drains in three internal steps: everything clicked
      is then committed and nothing of it is left in the preview. */
  lemma Drains<P>(s: State<P>, l: Ledger<P>, photo: P)
    requires Inv(s, l) && !s.failed
    ensures var s1, l1 := Step(s, Proceed(s, photo)), Record(l, s, Proceed(s, photo));
      var s2, l2 := Step(s1, Proceed(s1, photo)), Record(l1, s1, Proceed(s1, photo));
      var s3, l3 := Step(s2, Proceed(s2, photo)), Record(l2, s2, Proceed(s2, photo));
      && s3.flight.None? && !s3.timer && !s3.failed && s3.queued == 0 && s3.preview == 0
      && l3.clicked == l.clicked && SameAngle(l3.clicked, l3.committed)
  {
    var s1, l1 := Step(s, Proceed(s, photo)), Record(l, s, Proceed(s, photo));
    ProceedStep(s, l, photo);
    var s2, l2 := Step(s1, Proceed(s1, photo)), Record(l1, s1, Proceed(s1, photo));
    ProceedStep(s1, l1, photo);
    ProceedStep(s2, l2, photo);
    NothingRemains(Step(s2, Proceed(s2, photo)), Record(l2, s2, Proceed(s2, photo)));
  }

  /** Internal steps left, for a queue that has not failed. */
  function Remaining<P>(s: State<P>): nat {
    if s.flight.Some? then (if s.queued == 0 then 1 else if s.timer then 3 else 2)
    else if s.timer then 2 else 0
  }

  /** After a failure the retry sends, as one net angle, everything that is not
      committed, starting from the photo the server last returned. */
  lemma RetrySendsTheRest<P>(s: State<P>, l: Ledger<P>, photo: P)
    requires Inv(s, l) && Chained(s, l.outcomes, photo) && s.failed && s.queued != 0
    ensures var r := Step(s, Retry);
      && r.flight.Some? && r.queued == 0 && !r.failed
      && Requests(r.log) == Requests(s.log) + [(Baseline(photo, l.outcomes), r.flight.value)]
      && SameAngle(l.clicked, l.committed + r.flight.value)
  {
    FlushCounts(s);
    FlushBalanced(s, l.clicked, l.committed, l.acknowledged);
  }

  // ----- the closure itself

  /** The object that `createPhotoRotation` returns. The asynchronous `flush` is cut
      at its `await`: `SaveReturned` and `SaveFailed` are its two continuations. */
  class PhotoRotation<P> {
    var current: P
    var queued: int
    var preview: int
    var timer: bool
    var flight: Option<int>
    var failed: bool
    var disposed: bool
    var log: seq<Effect<P>>

    function Snapshot(): State<P>
      reads this
    {
      State(current, queued, preview, timer, flight, failed, disposed, log)
    }

    constructor (photo: P)
      ensures Snapshot() == Initial(photo)
    {
      current, queued, preview, timer := photo, 0, 0, false;
      flight, failed, disposed, log := None, false, false, [];
    }

    method OnChange()
      modifies this`log
      ensures Snapshot() == Notify(old(Snapshot()))
    {
      if !disposed {
        log := log + [Changed(preview, flight.Some? || queued != 0, failed)];
      }
    }

    method Complete()
      modifies this
      ensures Snapshot() == Finish(old(Snapshot()))
    {
      if flight.None? && queued == 0 {
        preview := 0;
        log := log + [Saved(current)];
      }
      OnChange();
    }

    /** `flush` up to its `await`; also the timer's callback and `retry`. */
    method SendQueued()
      modifies this
      ensures Snapshot() == Flush(old(Snapshot()))
    {
      timer := false;
      if flight.Some? || queued == 0 {
        return;
      }
      var degrees := if queued == 270 then -90 else queued;
      queued := 0;
      flight := Some(degrees);
      failed := false;
      OnChange();
      log := log + [Saves(current, degrees)];
    }

    method AfterSave()
      modifies this
      ensures Snapshot() == Settle(old(Snapshot()))
    {
      flight := None;
      if !failed && queued != 0 && !timer {
        SendQueued();
      } else {
        Complete();
      }
    }

    method SaveReturned(photo: P)
      requires flight.Some?
      modifies this
      ensures Snapshot() == Step(old(Snapshot()), Resolve(photo))
    {
      current := photo;
      AfterSave();
    }

    method SaveFailed()
      requires flight.Some?
      modifies this
      ensures Snapshot() == Step(old(Snapshot()), Reject)
    {
      timer := false;
      queued := Normalize(queued + flight.value);
      failed := true;
      AfterSave();
    }

    method Rotate(degrees: int)
      modifies this
      ensures Snapshot() == Step(old(Snapshot()), Click(degrees))
    {
      queued := Normalize(queued + degrees);
      preview := Normalize(preview + degrees);
      failed := false;
      timer := queued != 0;
      if flight.None? && queued == 0 {
        Complete();
      } else {
        OnChange();
      }
    }

    method DisposeQueue()
      modifies this
      ensures Snapshot() == Step(old(Snapshot()), Event<P>.Dispose)
    {
      disposed := true;
      timer := false;
      if !failed {
        SendQueued();
      }
    }
  }
}
