/** Reservations: only a row whose time has come is ever claimed, so a request whose
    reservations have not expired still has them. */
module LifecycleReservations {
  import opened Common
  import opened Database
  import opened Lifecycle
  import opened LifecycleSafety
  import opened LifecyclePages
  import opened LifecycleRotation
  import opened LifecycleCommits

  // ----- claimed rows are due

  ghost predicate ClaimedDue<B>(w: World<B>) {
    forall k :: k in w.db.deletions && w.db.deletions[k].claimed ==> w.db.deletions[k].notBefore <= w.clock
  }

  /** A row that is new or was there before, as it was. */
  ghost predicate FreshOrSame<B>(w: World<B>, x: World<B>) {
    && w.clock <= x.clock
    && forall k :: k in x.db.deletions ==>
      !x.db.deletions[k].claimed || (k in w.db.deletions && x.db.deletions[k] == w.db.deletions[k])
  }

  lemma FreshOrSameDue<B>(w: World<B>, x: World<B>)
    requires ClaimedDue(w) && FreshOrSame(w, x)
    ensures ClaimedDue(x)
  {
  }

  lemma RequestRowsStay<B, T>(f: Files<B, T>, w: World<B>, s: RequestStep<B>)
    requires KeyInv(w) && RequestEnabled(f, w, s)
    ensures FreshOrSame(w, RequestNext(f, w, s))
  {
    match s
    case Begin(_, news, _, expires, _) =>
      assert forall k <- KeysOf(news) :: Fresh(w, k);
      FreshReserve(w, KeysOf(news), expires);
    case BeginRotation(_, _, updated, expires, _) => FreshReserve(w, [updated.key], expires);
    case _ =>
  }

  lemma CommitRowsStay<B>(w: World<B>, s: CommitStep)
    requires CommitEnabled(w, s)
    ensures FreshOrSame(w, CommitNext(w, s))
  {
    CommitAttaches(w, s);
  }

  lemma SwapRowsStay<B>(w: World<B>, s: SwapStep)
    requires SwapEnabled(w, s)
    ensures FreshOrSame(w, SwapNext(w, s))
  {
    SwapReplaces(w, s);
  }

  lemma RemovalRowsStay<B>(w: World<B>, s: RemovalStep)
    requires RemovalEnabled(w, s)
    ensures FreshOrSame(w, RemovalNext(w, s))
  {
    RemovalDetaches(w, s);
  }

  lemma WorkerDue<B>(w: World<B>, s: WorkerStep)
    requires ClaimedDue(w) && WorkerEnabled(w, s)
    ensures ClaimedDue(WorkerNext(w, s))
  {
    if s.ClaimRows? {
      forall k | k in w.db.deletions && k in s.keys ensures w.db.deletions[k].notBefore <= w.clock {
        assert Due(w.db, k, w.clock);
      }
    }
  }

  lemma OtherRowsStay<B>(w: World<B>, s: OtherStep)
    requires OtherEnabled(w, s)
    ensures FreshOrSame(w, OtherNext(w, s))
  {
  }

  lemma StepDue<B, T>(f: Files<B, T>, w: World<B>, s: Step<B>)
    requires KeyInv(w) && ClaimedDue(w) && Enabled(f, w, s)
    ensures ClaimedDue(Next(f, w, s))
  {
    match s
    case OfRequest(r) => RequestRowsStay(f, w, r); FreshOrSameDue(w, RequestNext(f, w, r));
    case OfCommit(c) => CommitRowsStay(w, c); FreshOrSameDue(w, CommitNext(w, c));
    case OfSwap(t) => SwapRowsStay(w, t); FreshOrSameDue(w, SwapNext(w, t));
    case OfRemoval(m) => RemovalRowsStay(w, m); FreshOrSameDue(w, RemovalNext(w, m));
    case OfWorker(k) => WorkerDue(w, k);
    case Other(o) => OtherRowsStay(w, o); FreshOrSameDue(w, OtherNext(w, o));
  }

  /** After any run, whoever cleaned up when: a claimed row is one whose time has come. */
  lemma {:induction false} RunClaimsDue<B, T>(f: Files<B, T>, worlds: seq<World<B>>, steps: seq<Step<B>>, i: nat)
    requires Runs(f, worlds, steps) && i < |worlds|
    ensures forall k :: k in worlds[i].db.deletions && worlds[i].db.deletions[k].claimed ==>
      worlds[i].db.deletions[k].notBefore <= worlds[i].clock
  {
    if i > 0 {
      RunClaimsDue(f, worlds, steps, i - 1);
      RunKeeps(f, worlds, steps, i - 1);
      StepDue(f, worlds[i - 1], steps[i - 1]);
    }
  }

  // ----- the reservations of a request

  /** Every reservation of the request stands as it was made. */
  ghost predicate Reserved<B>(w: World<B>, pid: nat, expires: int) {
    && pid in w.uploads
    && forall k <- KeysOf(w.uploads[pid].news) :: k in w.db.deletions && w.db.deletions[k] == Row(expires, false)
  }

  /** The rows of `keys` are untouched. */
  ghost predicate Untouched<B>(w: World<B>, x: World<B>, keys: set<Key>) {
    forall k <- keys :: k in w.db.deletions ==> k in x.db.deletions && x.db.deletions[k] == w.db.deletions[k]
  }

  lemma UntouchedReserved<B>(w: World<B>, x: World<B>, pid: nat, expires: int)
    requires Reserved(w, pid, expires) && pid in x.uploads && x.uploads[pid].news == w.uploads[pid].news
    requires Untouched(w, x, SetOf(KeysOf(w.uploads[pid].news)))
    ensures Reserved(x, pid, expires)
  {
    forall k <- KeysOf(x.uploads[pid].news) ensures k in x.db.deletions && x.db.deletions[k] == Row(expires, false) {
      assert k in SetOf(KeysOf(w.uploads[pid].news));
    }
  }

  lemma BegunReserved<B>(w: World<B>, pid: nat, news: seq<NewPhoto>, files: seq<B>, expires: int, alive: bool)
    requires KeyInv(w) && |news| == |files| && Distinct(KeysOf(news)) && forall i :: 0 <= i < |news| ==> Fresh(w, news[i].key)
    ensures Reserved(Begun(w, pid, news, files, expires, alive), pid, expires)
  {
    assert forall k <- KeysOf(news) :: Fresh(w, k);
    FreshReserve(w, KeysOf(news), expires);
  }

  /** New reservations leave the old ones alone. */
  lemma MoreReserved<B>(w: World<B>, x: World<B>, keys: seq<Key>, until: int, pid: nat, expires: int)
    requires KeyInv(w) && Reserved(w, pid, expires) && Distinct(keys) && forall k <- keys :: Fresh(w, k)
    requires x.db == Reserve(w, keys, until) && pid in x.uploads && x.uploads[pid] == w.uploads[pid]
    ensures Reserved(x, pid, expires)
  {
    FreshReserve(w, keys, until);
    assert forall k <- w.db.deletions :: k !in keys;
    UntouchedReserved(w, x, pid, expires);
  }

  /** Another request begins, or this one goes on. */
  lemma RequestReserved<B, T>(f: Files<B, T>, w: World<B>, s: RequestStep<B>, pid: nat, expires: int)
    requires KeyInv(w) && Reserved(w, pid, expires) && RequestEnabled(f, w, s)
    ensures Reserved(RequestNext(f, w, s), pid, expires)
  {
    match s
    case Begin(_, news, _, until, _) =>
      assert forall k <- KeysOf(news) :: Fresh(w, k);
      MoreReserved(w, RequestNext(f, w, s), KeysOf(news), until, pid, expires);
    case BeginRotation(_, _, updated, until, _) => MoreReserved(w, RequestNext(f, w, s), [updated.key], until, pid, expires);
    case _ => UntouchedReserved(w, RequestNext(f, w, s), pid, expires);
  }

  /** Another request commits. */
  lemma AttachReserved<B>(w: World<B>, other: nat, db: Db, parent: Parent, offset: int, pid: nat, expires: int)
    requires KeyInv(w) && Reserved(w, pid, expires) && other in w.uploads && other != pid
    requires Attaches(w.db, db, parent, w.uploads[other].news, offset, w.clock)
    ensures Reserved(Attach(w, other, db), pid, expires)
  {
    assert SetOf(KeysOf(w.uploads[pid].news)) !! SetOf(KeysOf(w.uploads[other].news));
    UntouchedReserved(w, Attach(w, other, db), pid, expires);
  }

  lemma CommitReserved<B>(w: World<B>, s: CommitStep, pid: nat, expires: int)
    requires KeyInv(w) && Reserved(w, pid, expires) && CommitEnabled(w, s) && s.pid != pid
    ensures Reserved(CommitNext(w, s), pid, expires)
  {
    CommitAttaches(w, s);
    AttachReserved(w, s.pid, Committed(w, s).value, ParentOf(s), OffsetOf(w, s), pid, expires);
  }

  /** The keys of an open request are named by no row. */
  lemma OpenKeys<B>(w: World<B>, pid: nat)
    requires KeyInv(w) && pid in w.uploads
    ensures forall k <- Attached(w.db) :: k !in SetOf(KeysOf(w.uploads[pid].news))
  {
    assert UploadSound(w, w.uploads[pid]);
    NewKeysAreNew(w, w.uploads[pid]);
  }

  lemma SwapReserved<B>(w: World<B>, s: SwapStep, pid: nat, expires: int)
    requires KeyInv(w) && Reserved(w, pid, expires) && SwapEnabled(w, s) && s.pid != pid
    ensures Reserved(SwapNext(w, s), pid, expires)
  {
    SwapReplaces(w, s);
    var u := w.uploads[s.pid];
    assert KeysOf(u.news)[0] in SetOf(KeysOf(u.news));
    assert SetOf(KeysOf(w.uploads[pid].news)) !! SetOf(KeysOf(u.news));
    OpenKeys(w, pid);
    assert w.db.photos[u.rotation.value.photo].key in Attached(w.db);
    UntouchedReserved(w, SwapNext(w, s), pid, expires);
  }

  lemma RemovalReserved<B>(w: World<B>, s: RemovalStep, pid: nat, expires: int)
    requires Reserved(w, pid, expires) && RemovalEnabled(w, s)
    ensures Reserved(RemovalNext(w, s), pid, expires)
  {
    RemovalDetaches(w, s);
    UntouchedReserved(w, RemovalNext(w, s), pid, expires);
  }

  /** Workers claim what is due, and complete what is claimed. */
  lemma WorkerReserved<B>(w: World<B>, s: WorkerStep, pid: nat, expires: int)
    requires Reserved(w, pid, expires) && WorkerEnabled(w, s) && w.clock < expires
    ensures Reserved(WorkerNext(w, s), pid, expires)
  {
    if s.ClaimRows? {
      forall k <- KeysOf(w.uploads[pid].news) ensures k !in s.keys {
        assert w.db.deletions[k].notBefore > w.clock;
        assert k in s.keys ==> Due(w.db, k, w.clock);
      }
    }
    UntouchedReserved(w, WorkerNext(w, s), pid, expires);
  }

  lemma OtherReserved<B>(w: World<B>, s: OtherStep, pid: nat, expires: int)
    requires Reserved(w, pid, expires) && OtherEnabled(w, s)
    ensures Reserved(OtherNext(w, s), pid, expires)
  {
  }

  /** Every step but the commit of the request itself. */
  lemma StepReserved<B, T>(f: Files<B, T>, w: World<B>, s: Step<B>, pid: nat, expires: int)
    requires KeyInv(w) && Reserved(w, pid, expires) && Enabled(f, w, s) && w.clock < expires
    requires pid in Next(f, w, s).uploads
    ensures Reserved(Next(f, w, s), pid, expires)
  {
    match s
    case OfRequest(r) => RequestReserved(f, w, r, pid, expires);
    case OfCommit(c) => CommitReserved(w, c, pid, expires);
    case OfSwap(t) => SwapReserved(w, t, pid, expires);
    case OfRemoval(m) => RemovalReserved(w, m, pid, expires);
    case OfWorker(k) => WorkerReserved(w, k, pid, expires);
    case Other(o) => OtherReserved(w, o, pid, expires);
  }

  /** Time does not run backwards, and an open request keeps its photos. */
  ghost predicate Onward<B>(w: World<B>, x: World<B>) {
    && w.clock <= x.clock
    && forall pid :: pid in w.uploads && pid in x.uploads ==> x.uploads[pid].news == w.uploads[pid].news
  }

  lemma RequestOnward<B, T>(f: Files<B, T>, w: World<B>, s: RequestStep<B>)
    requires RequestEnabled(f, w, s)
    ensures Onward(w, RequestNext(f, w, s))
  {
  }

  lemma CommitOnward<B>(w: World<B>, s: CommitStep)
    requires CommitEnabled(w, s)
    ensures Onward(w, CommitNext(w, s))
  {
  }

  lemma SwapOnward<B>(w: World<B>, s: SwapStep)
    requires SwapEnabled(w, s)
    ensures Onward(w, SwapNext(w, s))
  {
  }

  lemma RemovalOnward<B>(w: World<B>, s: RemovalStep)
    requires RemovalEnabled(w, s)
    ensures Onward(w, RemovalNext(w, s))
  {
  }

  lemma WorkerOnward<B>(w: World<B>, s: WorkerStep)
    requires WorkerEnabled(w, s)
    ensures Onward(w, WorkerNext(w, s))
  {
  }

  lemma OtherOnward<B>(w: World<B>, s: OtherStep)
    requires OtherEnabled(w, s)
    ensures Onward(w, OtherNext(w, s))
  {
  }

  lemma StepOnward<B, T>(f: Files<B, T>, w: World<B>, s: Step<B>)
    requires Enabled(f, w, s)
    ensures Onward(w, Next(f, w, s))
  {
    match s
    case OfRequest(r) => RequestOnward(f, w, r);
    case OfCommit(c) => CommitOnward(w, c);
    case OfSwap(t) => SwapOnward(w, t);
    case OfRemoval(m) => RemovalOnward(w, m);
    case OfWorker(k) => WorkerOnward(w, k);
    case Other(o) => OtherOnward(w, o);
  }

  /** The reservations of a batch that was begun. */
  ghost predicate Stands<B>(w: World<B>, pid: nat, news: seq<NewPhoto>, expires: int) {
    Reserved(w, pid, expires) && w.uploads[pid].news == news
  }

  lemma FirstStands<B, T>(f: Files<B, T>, w: World<B>, s: RequestStep<B>)
    requires KeyInv(w) && s.Begin? && RequestEnabled(f, w, s)
    ensures Stands(RequestNext(f, w, s), s.pid, s.news, s.expires)
  {
    BegunReserved(w, s.pid, s.news, s.files, s.expires, s.alive);
  }

  lemma NextStands<B, T>(f: Files<B, T>, w: World<B>, s: Step<B>, x: World<B>, pid: nat, news: seq<NewPhoto>, expires: int)
    requires KeyInv(w) && Stands(w, pid, news, expires) && Enabled(f, w, s) && x == Next(f, w, s)
    requires Onward(w, x) && x.clock < expires && pid in x.uploads
    ensures Stands(x, pid, news, expires)
  {
    StepReserved(f, w, s, pid, expires);
  }

  lemma RunOnward<B, T>(f: Files<B, T>, worlds: seq<World<B>>, steps: seq<Step<B>>, j: nat)
    requires Runs(f, worlds, steps) && 0 < j < |worlds|
    ensures KeyInv(worlds[j - 1]) && Onward(worlds[j - 1], worlds[j])
  {
    RunKeeps(f, worlds, steps, j - 1);
    StepOnward(f, worlds[j - 1], steps[j - 1]);
  }

  lemma RunFirstStands<B, T>(f: Files<B, T>, worlds: seq<World<B>>, steps: seq<Step<B>>, i: nat,
                             pid: nat, news: seq<NewPhoto>, files: seq<B>, expires: int, alive: bool)
    requires Runs(f, worlds, steps) && i + 1 < |worlds| && steps[i] == OfRequest(Begin(pid, news, files, expires, alive))
    ensures Stands(worlds[i + 1], pid, news, expires)
  {
    RunOnward(f, worlds, steps, i + 1);
    FirstStands(f, worlds[i], steps[i].request);
  }

  lemma RunNextStands<B, T>(f: Files<B, T>, worlds: seq<World<B>>, steps: seq<Step<B>>, j: nat,
                            pid: nat, news: seq<NewPhoto>, expires: int)
    requires Runs(f, worlds, steps) && 0 < j < |worlds|
    requires Stands(worlds[j - 1], pid, news, expires) && worlds[j].clock < expires && pid in worlds[j].uploads
    ensures Stands(worlds[j], pid, news, expires)
  {
    RunOnward(f, worlds, steps, j);
    NextStands(f, worlds[j - 1], steps[j - 1], worlds[j], pid, news, expires);
  }

  /** The reservations survive each step behind which the request is open and its time has
      not come. */
  ghost predicate Lasting<B>(worlds: seq<World<B>>, pid: nat, news: seq<NewPhoto>, expires: int) {
    forall m :: 0 < m < |worlds| && Stands(worlds[m - 1], pid, news, expires) && Waits(worlds[m], pid, expires) ==>
      Stands(worlds[m], pid, news, expires)
  }

  ghost predicate Waits<B>(w: World<B>, pid: nat, expires: int) {
    pid in w.uploads && w.clock < expires
  }

  lemma {:induction false} StandsOn<B>(worlds: seq<World<B>>, i: nat, j: nat, pid: nat, news: seq<NewPhoto>, expires: int)
    requires Lasting(worlds, pid, news, expires) && i <= j < |worlds| && Stands(worlds[i], pid, news, expires)
    requires forall k :: i <= k <= j ==> Waits(worlds[k], pid, expires)
    ensures Stands(worlds[j], pid, news, expires)
    decreases j
  {
    if i < j {
      StandsOn(worlds, i, j - 1, pid, news, expires);
    }
  }

  lemma RunLasts<B, T>(f: Files<B, T>, worlds: seq<World<B>>, steps: seq<Step<B>>, pid: nat, news: seq<NewPhoto>, expires: int)
    requires Runs(f, worlds, steps)
    ensures Lasting(worlds, pid, news, expires)
  {
    forall m | 0 < m < |worlds| && Stands(worlds[m - 1], pid, news, expires) && Waits(worlds[m], pid, expires)
      ensures Stands(worlds[m], pid, news, expires)
    {
      RunNextStands(f, worlds, steps, m, pid, news, expires);
    }
  }

  ghost predicate Rising<B>(worlds: seq<World<B>>) {
    forall m :: 0 < m < |worlds| ==> worlds[m - 1].clock <= worlds[m].clock
  }

  lemma {:induction false} ClocksRise<B>(worlds: seq<World<B>>, k: nat, j: nat)
    requires Rising(worlds) && k <= j < |worlds|
    ensures worlds[k].clock <= worlds[j].clock
    decreases j
  {
    if k < j {
      ClocksRise(worlds, k, j - 1);
    }
  }

  lemma RunRises<B, T>(f: Files<B, T>, worlds: seq<World<B>>, steps: seq<Step<B>>)
    requires Runs(f, worlds, steps)
    ensures Rising(worlds)
  {
    forall m | 0 < m < |worlds| ensures worlds[m - 1].clock <= worlds[m].clock {
      RunOnward(f, worlds, steps, m);
    }
  }

  /** From the step in which a request begins, up to its commit, and as long as the clock has
      not reached the time it asked for, every one of its reservations stands. */
  lemma ReservationsStand<B, T>(f: Files<B, T>, worlds: seq<World<B>>, steps: seq<Step<B>>, i: nat, j: nat,
                                pid: nat, news: seq<NewPhoto>, files: seq<B>, expires: int, alive: bool)
    requires Runs(f, worlds, steps) && i < j < |worlds| && steps[i] == OfRequest(Begin(pid, news, files, expires, alive))
    requires (forall k :: i < k <= j ==> pid in worlds[k].uploads) && worlds[j].clock < expires
    ensures Stands(worlds[j], pid, news, expires)
  {
    RunFirstStands(f, worlds, steps, i, pid, news, files, expires, alive);
    RunRises(f, worlds, steps);
    forall k | i < k <= j ensures Waits(worlds[k], pid, expires) {
      ClocksRise(worlds, k, j);
    }
    RunLasts(f, worlds, steps, pid, news, expires);
    StandsOn(worlds, i + 1, j, pid, news, expires);
  }

  /** So a request that has stored its files before its reservations expire commits its
      logbook unless a reference is not active, the id is taken or the slot is. */
  lemma UnexpiredCommits<B, T>(f: Files<B, T>, worlds: seq<World<B>>, steps: seq<Step<B>>, i: nat, j: nat,
                               pid: nat, news: seq<NewPhoto>, files: seq<B>, expires: int, alive: bool, id: Id, slot: Slot)
    requires Runs(f, worlds, steps) && i < j < |worlds| && steps[i] == OfRequest(Begin(pid, news, files, expires, alive))
    requires (forall k :: i < k <= j ==> pid in worlds[k].uploads) && worlds[j].clock < expires
    requires Ready(worlds[j], pid, false)
    ensures var db := worlds[j].db;
      Create(db, id, slot, news, worlds[j].clock).Ok? <==>
        && slot.machine in db.machines && slot.shift in db.shifts && id !in db.books
        && forall b :: b in db.books ==> db.books[b] != slot
  {
    var w := worlds[j];
    ReservationsStand(f, worlds, steps, i, j, pid, news, files, expires, alive);
    RunKeeps(f, worlds, steps, j);
    RunTraces(f, worlds, steps, j);
    RunPages(f, worlds, steps, j);
    assert Standing(w, pid);
    CreateCommits(w, pid, id, slot);
  }
}
