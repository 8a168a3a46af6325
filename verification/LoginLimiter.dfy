/** The limiter of login attempts: fixed windows per address in a bounded map. */
module LoginLimiter {
  import opened Common
  import opened Sets

  /** Times are in milliseconds since the zero time. */
  const MINUTE := 60000
  const CAPACITY := 4096
  const ATTEMPTS := 10

  datatype Window = Window(started: int, attempts: int)

  type Windows = map<string, Window>

  const ZERO := Window(0, 0)

  predicate Expired(w: Window, now: int) {
    now - w.started >= MINUTE
  }

  /** What is left after the eviction loop. */
  function Evicted(windows: Windows, now: int): Windows {
    map k | k in windows && !Expired(windows[k], now) :: windows[k]
  }

  /** The windows that the attempt finds: a new address makes room first. */
  function Cleared(windows: Windows, ip: string, now: int): Windows {
    if ip !in windows && |windows| >= CAPACITY then Evicted(windows, now) else windows
  }

  /** No room for a new address. */
  predicate Full(windows: Windows, ip: string, now: int) {
    ip !in windows && |Cleared(windows, ip, now)| >= CAPACITY
  }

  function WindowOf(windows: Windows, ip: string): Window {
    if ip in windows then windows[ip] else ZERO
  }

  /** The window that an attempt counts against. */
  function CurrentWindow(windows: Windows, ip: string, now: int): Window {
    if Expired(WindowOf(windows, ip), now) then Window(now, 0) else WindowOf(windows, ip)
  }

  predicate WithinQuota(windows: Windows, ip: string, now: int) {
    CurrentWindow(windows, ip, now).attempts < ATTEMPTS
  }

  function Counted(windows: Windows, ip: string, now: int): Windows {
    var w := CurrentWindow(windows, ip, now);
    windows[ip := w.(attempts := w.attempts + 1)]
  }

  predicate Allows(windows: Windows, ip: string, now: int) {
    !Full(windows, ip, now) && WithinQuota(windows, ip, now)
  }

  function After(windows: Windows, ip: string, now: int): Windows {
    if Allows(windows, ip, now) then Counted(Cleared(windows, ip, now), ip, now) else Cleared(windows, ip, now)
  }

  class Limiter {
    var windows: Windows

    constructor ()
      ensures windows == map[]
    {
      windows := map[];
    }

    /** The eviction loop, in any order. */
    method Evict(now: int)
      modifies this
      ensures windows == Evicted(old(windows), now)
    {
      ghost var before := windows;
      var rest := windows.Keys;
      while rest != {}
        invariant rest <= windows.Keys <= before.Keys
        invariant forall k :: k in windows ==> windows[k] == before[k]
        invariant forall k :: k in before && k !in rest ==> (k in windows <==> !Expired(before[k], now))
        decreases rest
      {
        var key :| key in rest;
        rest := rest - {key};
        if now - windows[key].started >= MINUTE {
          windows := windows - {key};
        }
      }
    }

    method Allow(ip: string, now: int) returns (ok: bool)
      requires now >= MINUTE
      modifies this
      ensures ok == Allows(old(windows), ip, now)
      ensures windows == After(old(windows), ip, now)
    {
      var window := ZERO;
      var known := ip in windows;
      if known {
        window := windows[ip];
      }
      if !known && |windows| >= CAPACITY {
        Evict(now);
        if |windows| >= CAPACITY {
          return false;
        }
      }
      if now - window.started >= MINUTE {
        window := Window(now, 0);
      }
      if window.attempts >= ATTEMPTS {
        return false;
      }
      windows := windows[ip := window.(attempts := window.attempts + 1)];
      return true;
    }
  }

  // ----- runs

  datatype Attempt = Attempt(ip: string, now: int)

  /** The limiter; a ledger of windows that is never evicted; the times at which each
      address was let through. */
  datatype World = World(windows: Windows, ledger: Windows, allowed: map<string, seq<int>>, clock: int)

  const START := World(map[], map[], map[], MINUTE)

  function Times(w: World, ip: string): seq<int> {
    if ip in w.allowed then w.allowed[ip] else []
  }

  function Next(w: World, a: Attempt): World {
    World(
      After(w.windows, a.ip, a.now),
      if !Full(w.windows, a.ip, a.now) && WithinQuota(w.ledger, a.ip, a.now) then Counted(w.ledger, a.ip, a.now) else w.ledger,
      if Allows(w.windows, a.ip, a.now) then w.allowed[a.ip := Times(w, a.ip) + [a.now]] else w.allowed,
      a.now)
  }

  function Run(attempts: seq<Attempt>): World {
    if attempts == [] then START else Next(Run(attempts[..|attempts| - 1]), attempts[|attempts| - 1])
  }

  /** The clock does not run backwards, and starts a minute after the zero time at least. */
  predicate Nondecreasing(attempts: seq<Attempt>) {
    && (forall i :: 0 <= i < |attempts| ==> attempts[i].now >= MINUTE)
    && forall i, j :: 0 <= i < j < |attempts| ==> attempts[i].now <= attempts[j].now
  }

  // ----- the bound on the map

  lemma Bounded(windows: Windows, ip: string, now: int)
    requires |windows| <= CAPACITY
    ensures |After(windows, ip, now)| <= CAPACITY
  {
    assert Evicted(windows, now).Keys <= windows.Keys;
    SubsetOfSameSize(Evicted(windows, now).Keys, windows.Keys);
    var cleared := Cleared(windows, ip, now);
    if Allows(windows, ip, now) {
      assert Counted(cleared, ip, now).Keys == cleared.Keys + {ip};
    }
  }

  // ----- eviction changes nobody's quota

  /** The limiter agrees with the ledger, but for windows that are over. */
  ghost predicate Agrees(windows: Windows, ledger: Windows, now: int) {
    && (forall k :: k in windows ==> k in ledger && ledger[k] == windows[k])
    && (forall k :: k in ledger && k !in windows ==> Expired(ledger[k], now))
  }

  lemma AgreeNext(w: World, a: Attempt)
    requires Agrees(w.windows, w.ledger, w.clock) && w.clock <= a.now && MINUTE <= a.now
    ensures Agrees(Next(w, a).windows, Next(w, a).ledger, a.now)
    ensures WithinQuota(w.windows, a.ip, a.now) == WithinQuota(w.ledger, a.ip, a.now)
  {
    assert CurrentWindow(w.windows, a.ip, a.now) == CurrentWindow(w.ledger, a.ip, a.now);
    assert CurrentWindow(Cleared(w.windows, a.ip, a.now), a.ip, a.now) == CurrentWindow(w.ledger, a.ip, a.now);
  }

  // ----- how often an address gets through

  /** How many of the times lie in [lo, hi). */
  function Count(times: seq<int>, lo: int, hi: int): (n: nat)
    ensures n <= |times|
  {
    if times == [] then 0
    else
      var k := |times| - 1;
      Count(times[..k], lo, hi) + if lo <= times[k] < hi then 1 else 0
  }

  lemma CountAppend(times: seq<int>, t: int, lo: int, hi: int)
    ensures Count(times + [t], lo, hi) == Count(times, lo, hi) + if lo <= t < hi then 1 else 0
  {
    assert (times + [t])[..|times|] == times;
  }

  lemma {:induction false} CountSplit(times: seq<int>, lo: int, mid: int, hi: int)
    requires lo <= mid <= hi
    ensures Count(times, lo, hi) == Count(times, lo, mid) + Count(times, mid, hi)
  {
    if times != [] {
      CountSplit(times[..|times| - 1], lo, mid, hi);
    }
  }

  lemma {:induction false} CountGrows(times: seq<int>, lo: int, hi: int, wideLo: int, wideHi: int)
    requires wideLo <= lo && hi <= wideHi
    ensures Count(times, lo, hi) <= Count(times, wideLo, wideHi)
  {
    if times != [] {
      CountGrows(times[..|times| - 1], lo, hi, wideLo, wideHi);
    }
  }

  lemma {:induction false} CountNone(times: seq<int>, lo: int, hi: int)
    requires forall i :: 0 <= i < |times| ==> times[i] < lo
    ensures Count(times, lo, hi) == 0
  {
    if times != [] {
      CountNone(times[..|times| - 1], lo, hi);
    }
  }

  /** The half-open minute that begins at a time. */
  function InMinute(times: seq<int>, t: int): (n: nat)
    ensures n <= |times|
  {
    Count(times, t, t + 60000)
  }

  /** The latest window of an address holds its latest attempts; the one before leaves at
      most nine in the minute that ends where this one starts. */
  ghost predicate Tallied(times: seq<int>, w: Window, now: int) {
    && w.started <= now && 1 <= w.attempts <= ATTEMPTS
    && (forall i :: 0 <= i < |times| ==> times[i] <= now && times[i] < w.started + MINUTE)
    && Count(times, w.started, w.started + MINUTE) == w.attempts
    && Count(times, w.started, w.started + 1) >= 1
    && Count(times, w.started - MINUTE + 1, w.started) <= ATTEMPTS - 1
    && forall t :: InMinute(times, t) <= 2 * ATTEMPTS - 1
  }

  ghost predicate Quiet(times: seq<int>, ledger: Windows, ip: string, now: int) {
    if ip in ledger then Tallied(times, ledger[ip], now) else times == []
  }

  lemma FirstTallied(now: int)
    ensures Tallied([now], Window(now, 1), now)
  {
    assert [now][..0] == [];
  }

  /** A further attempt in the same window. */
  lemma SameWindow(times: seq<int>, w: Window, before: int, now: int)
    requires Tallied(times, w, before) && before <= now && !Expired(w, now) && w.attempts < ATTEMPTS
    ensures Tallied(times + [now], w.(attempts := w.attempts + 1), now)
  {
    var all, s := times + [now], w.started;
    CountAppend(times, now, s, s + MINUTE);
    CountAppend(times, now, s, s + 1);
    CountAppend(times, now, s - MINUTE + 1, s);
    forall t ensures InMinute(all, t) <= 2 * ATTEMPTS - 1 {
      assert InMinute(times, t) <= 2 * ATTEMPTS - 1;
      CountAppend(times, now, t, t + MINUTE);
      if t <= now < t + MINUTE {
        IntervalBound(all, s, t);
      }
    }
  }

  /** An interval that reaches into a window from before it. */
  lemma IntervalBound(times: seq<int>, s: int, t: int)
    requires s - MINUTE < t < s + MINUTE
    requires forall i :: 0 <= i < |times| ==> times[i] < s + MINUTE
    requires Count(times, s, s + MINUTE) <= ATTEMPTS && Count(times, s - MINUTE + 1, s) <= ATTEMPTS - 1
    ensures InMinute(times, t) <= 2 * ATTEMPTS - 1
  {
    if t < s {
      CountSplit(times, t, s, t + MINUTE);
      CountGrows(times, t, s, s - MINUTE + 1, s);
      CountGrows(times, s, t + MINUTE, s, s + MINUTE);
    } else {
      CountSplit(times, t, s + MINUTE, t + MINUTE);
      CountGrows(times, t, s + MINUTE, s, s + MINUTE);
      CountNone(times, s + MINUTE, t + MINUTE);
    }
  }

  /** The first attempt of a new window. */
  lemma NewWindow(times: seq<int>, w: Window, before: int, now: int)
    requires Tallied(times, w, before) && before <= now && Expired(w, now)
    ensures Tallied(times + [now], Window(now, 1), now)
  {
    var all, s := times + [now], w.started;
    CountNone(times, now, now + MINUTE);
    CountNone(times, now, now + 1);
    CountAppend(times, now, now, now + MINUTE);
    CountAppend(times, now, now, now + 1);
    CountAppend(times, now, now - MINUTE + 1, now);
    PreviousWindow(times, w, before, now);
    forall t ensures InMinute(all, t) <= 2 * ATTEMPTS - 1 {
      assert InMinute(times, t) <= 2 * ATTEMPTS - 1;
      CountAppend(times, now, t, t + MINUTE);
      if t <= now < t + MINUTE {
        IntervalBound(all, now, t);
      }
    }
  }

  /** The first attempt of a window is the one that opened it. */
  lemma PreviousWindow(times: seq<int>, w: Window, before: int, now: int)
    requires Tallied(times, w, before) && Expired(w, now)
    ensures Count(times, now - MINUTE + 1, now) <= ATTEMPTS - 1
  {
    var s := w.started;
    CountSplit(times, s, s + 1, s + MINUTE);
    CountGrows(times, now - MINUTE + 1, now, s + 1, now);
    CountSplit(times, s + 1, s + MINUTE, now);
    CountNone(times, s + MINUTE, now);
  }

  /** One more attempt let through. */
  lemma AllowedTallied(times: seq<int>, ledger: Windows, ip: string, before: int, now: int)
    requires Quiet(times, ledger, ip, before) && before <= now && MINUTE <= now && WithinQuota(ledger, ip, now)
    ensures Tallied(times + [now], Counted(ledger, ip, now)[ip], now)
  {
    if ip !in ledger {
      assert times + [now] == [now];
      FirstTallied(now);
    } else if Expired(ledger[ip], now) {
      NewWindow(times, ledger[ip], before, now);
    } else {
      SameWindow(times, ledger[ip], before, now);
    }
  }

  lemma QuietLater(times: seq<int>, ledger: Windows, ip: string, before: int, now: int)
    requires Quiet(times, ledger, ip, before) && before <= now
    ensures Quiet(times, ledger, ip, now)
  {
  }

  lemma QuietNext(w: World, a: Attempt, ip: string)
    requires Agrees(w.windows, w.ledger, w.clock) && w.clock <= a.now && MINUTE <= a.now
    requires Quiet(Times(w, ip), w.ledger, ip, w.clock)
    ensures Quiet(Times(Next(w, a), ip), Next(w, a).ledger, ip, a.now)
  {
    AgreeNext(w, a);
    if ip == a.ip && Allows(w.windows, ip, a.now) {
      AllowedTallied(Times(w, ip), w.ledger, ip, w.clock, a.now);
    } else {
      QuietLater(Times(w, ip), w.ledger, ip, w.clock, a.now);
    }
  }

  ghost predicate Inv(w: World) {
    && |w.windows| <= CAPACITY
    && Agrees(w.windows, w.ledger, w.clock)
    && forall ip :: Quiet(Times(w, ip), w.ledger, ip, w.clock)
  }

  lemma {:induction false} RunKeeps(attempts: seq<Attempt>)
    requires Nondecreasing(attempts)
    ensures Inv(Run(attempts))
    ensures attempts != [] ==> Run(attempts).clock == attempts[|attempts| - 1].now
    ensures attempts == [] ==> Run(attempts).clock == MINUTE
  {
    if attempts != [] {
      var n := |attempts| - 1;
      var w, a := Run(attempts[..n]), attempts[n];
      RunKeeps(attempts[..n]);
      Bounded(w.windows, a.ip, a.now);
      AgreeNext(w, a);
      forall ip ensures Quiet(Times(Next(w, a), ip), Next(w, a).ledger, ip, a.now) {
        QuietNext(w, a, ip);
      }
    }
  }

  /** Over any run the map stays bounded; the counter of a window is the number of attempts
      let through in it, ten at most; and no half-open minute lets more than nineteen
      attempts of one address through. */
  lemma RateLimited(attempts: seq<Attempt>, ip: string, t: int)
    requires Nondecreasing(attempts)
    ensures |Run(attempts).windows| <= 4096
    ensures ip in Run(attempts).windows ==>
      var window := Run(attempts).windows[ip];
      InMinute(Times(Run(attempts), ip), window.started) == window.attempts <= 10
    ensures InMinute(Times(Run(attempts), ip), t) <= 19
  {
    RunKeeps(attempts);
    var w := Run(attempts);
    assert Quiet(Times(w, ip), w.ledger, ip, w.clock);
    assert ip in w.ledger ==> Tallied(Times(w, ip), w.ledger[ip], w.clock);
  }

  /** A window that was opened is the latest, or was over before the latest began, and ten
      attempts at most got through in it. */
  ghost predicate Obeyed(w: World, ip: string, window: Window) {
    && ip in w.ledger
    && (w.ledger[ip].started == window.started || w.ledger[ip].started >= window.started + 60000)
    && InMinute(Times(w, ip), window.started) <= 10
  }

  lemma ObeyedNext(w: World, a: Attempt, ip: string, window: Window)
    requires Obeyed(w, ip, window) && Quiet(Times(w, ip), w.ledger, ip, w.clock) && MINUTE <= a.now
    requires Quiet(Times(Next(w, a), ip), Next(w, a).ledger, ip, a.now)
    ensures Obeyed(Next(w, a), ip, window)
  {
    if Next(w, a).ledger[ip].started != window.started {
      CountAppend(Times(w, ip), a.now, window.started, window.started + MINUTE);
    }
  }

  lemma RunQuiet(attempts: seq<Attempt>, ip: string)
    requires Nondecreasing(attempts)
    ensures Quiet(Times(Run(attempts), ip), Run(attempts).ledger, ip, Run(attempts).clock)
  {
    RunKeeps(attempts);
  }

  lemma LatestObeyed(attempts: seq<Attempt>, ip: string)
    requires Nondecreasing(attempts) && ip in Run(attempts).ledger
    ensures Obeyed(Run(attempts), ip, Run(attempts).ledger[ip])
  {
    RunQuiet(attempts, ip);
  }

  lemma RunObeyed(attempts: seq<Attempt>, ip: string, window: Window)
    requires Nondecreasing(attempts) && attempts != []
    requires Obeyed(Run(attempts[..|attempts| - 1]), ip, window)
    ensures Obeyed(Run(attempts), ip, window)
  {
    RunQuiet(attempts[..|attempts| - 1], ip);
    RunQuiet(attempts, ip);
    ObeyedNext(Run(attempts[..|attempts| - 1]), attempts[|attempts| - 1], ip, window);
  }

  /** In every window that was ever opened, ten attempts at most get through. */
  lemma {:induction false} WindowQuota(attempts: seq<Attempt>, n: nat, ip: string)
    requires Nondecreasing(attempts) && n <= |attempts| && ip in Run(attempts[..n]).ledger
    ensures Obeyed(Run(attempts), ip, Run(attempts[..n]).ledger[ip])
    decreases |attempts|
  {
    if n == |attempts| {
      assert attempts[..n] == attempts;
      LatestObeyed(attempts, ip);
    } else {
      var before := attempts[..|attempts| - 1];
      assert before[..n] == attempts[..n];
      WindowQuota(before, n, ip);
      RunObeyed(attempts, ip, Run(attempts[..n]).ledger[ip]);
    }
  }

  // ----- nineteen in a minute

  lemma {:induction false} CountRepeat(times: seq<int>, now: int, k: nat, lo: int, hi: int)
    requires lo <= now < hi
    ensures Count(times + Repeat(now, k), lo, hi) == Count(times, lo, hi) + k
    decreases k
  {
    RepeatFront(times, now, k);
    if k > 0 {
      CountAppend(times, now, lo, hi);
      CountRepeat(times + [now], now, k - 1, lo, hi);
    }
  }

  lemma RunAppend(attempts: seq<Attempt>, a: Attempt)
    ensures Run(attempts + [a]) == Next(Run(attempts), a)
  {
    assert (attempts + [a])[..|attempts|] == attempts;
  }

  /** An attempt of the only address, within the quota of its window. */
  lemma OneMorePasses(w: World, ip: string, window: Window, times: seq<int>, now: int)
    requires Alone(w, ip, window, times) && !Expired(window, now) && window.attempts < ATTEMPTS
    ensures Alone(Next(w, Attempt(ip, now)), ip, Window(window.started, window.attempts + 1), times + [now])
  {
  }

  /** The same attempt k times. */
  function Again(w: World, a: Attempt, k: nat): World
    decreases k
  {
    if k == 0 then w else Again(Next(w, a), a, k - 1)
  }

  lemma RepeatFront<T>(s: seq<T>, x: T, k: nat)
    ensures k == 0 ==> s + Repeat(x, k) == s
    ensures k > 0 ==> s + Repeat(x, k) == (s + [x]) + Repeat(x, k - 1)
  {
  }

  lemma {:induction false} RunAgain(attempts: seq<Attempt>, a: Attempt, k: nat)
    ensures Run(attempts + Repeat(a, k)) == Again(Run(attempts), a, k)
    decreases k
  {
    RepeatFront(attempts, a, k);
    if k > 0 {
      RunAppend(attempts, a);
      RunAgain(attempts + [a], a, k - 1);
    }
  }

  /** The window of the only address, and when it was let through. */
  predicate Alone(w: World, ip: string, window: Window, times: seq<int>) {
    w.windows == map[ip := window] && Times(w, ip) == times
  }

  lemma {:induction false} Burst(w: World, ip: string, window: Window, times: seq<int>, now: int, k: nat)
    requires Alone(w, ip, window, times) && !Expired(window, now) && window.attempts + k <= ATTEMPTS
    ensures Alone(Again(w, Attempt(ip, now), k), ip, Window(window.started, window.attempts + k), times + Repeat(now, k))
    decreases k
  {
    RepeatFront(times, now, k);
    if k > 0 {
      var a, more := Attempt(ip, now), Window(window.started, window.attempts + 1);
      OneMorePasses(w, ip, window, times, now);
      Burst(Next(w, a), ip, more, times + [now], now, k - 1);
    }
  }

  lemma BurstRun(attempts: seq<Attempt>, ip: string, window: Window, times: seq<int>, now: int, k: nat)
    requires Alone(Run(attempts), ip, window, times) && !Expired(window, now) && window.attempts + k <= ATTEMPTS
    ensures Alone(Run(attempts + Repeat(Attempt(ip, now), k)), ip, Window(window.started, window.attempts + k), times + Repeat(now, k))
  {
    RunAgain(attempts, Attempt(ip, now), k);
    Burst(Run(attempts), ip, window, times, now, k);
  }

  /** The first attempt of a window of the only address, or of an empty map. */
  lemma Opening(attempts: seq<Attempt>, ip: string, times: seq<int>, now: int)
    requires var w := Run(attempts);
      MINUTE <= now && Times(w, ip) == times && (w.windows == map[] || (w.windows.Keys == {ip} && Expired(w.windows[ip], now)))
    ensures Alone(Run(attempts + [Attempt(ip, now)]), ip, Window(now, 1), times + [now])
  {
    RunAppend(attempts, Attempt(ip, now));
  }

  /** One attempt opens a window, nine come at its very end. */
  function Early(ip: string): seq<Attempt> {
    [] + [Attempt(ip, MINUTE)] + Repeat(Attempt(ip, 2 * MINUTE - 1), 9)
  }

  /** And ten as soon as it is over. */
  function Crowd(ip: string): seq<Attempt> {
    Early(ip) + [Attempt(ip, 2 * MINUTE)] + Repeat(Attempt(ip, 2 * MINUTE), 9)
  }

  function EarlyTimes(): seq<int> {
    [] + [MINUTE] + Repeat(2 * MINUTE - 1, 9)
  }

  function CrowdTimes(): seq<int> {
    EarlyTimes() + [2 * MINUTE] + Repeat(2 * MINUTE, 9)
  }

  lemma EarlyPasses(ip: string)
    ensures Alone(Run(Early(ip)), ip, Window(MINUTE, 10), EarlyTimes())
  {
    var one := [] + [Attempt(ip, MINUTE)];
    Opening([], ip, [], MINUTE);
    BurstRun(one, ip, Window(MINUTE, 1), [] + [MINUTE], 2 * MINUTE - 1, 9);
  }

  lemma CrowdPasses(ip: string)
    ensures Times(Run(Crowd(ip)), ip) == CrowdTimes()
  {
    EarlyPasses(ip);
    var eleven := Early(ip) + [Attempt(ip, 2 * MINUTE)];
    Opening(Early(ip), ip, EarlyTimes(), 2 * MINUTE);
    BurstRun(eleven, ip, Window(2 * MINUTE, 1), EarlyTimes() + [2 * MINUTE], 2 * MINUTE, 9);
  }

  /** The bound is reached: nineteen attempts of one address pass within a minute, indeed
      within two milliseconds. */
  lemma NineteenPass(ip: string)
    ensures Nondecreasing(Crowd(ip))
    ensures InMinute(Times(Run(Crowd(ip)), ip), 2 * MINUTE - 1) == 19
    ensures Count(Times(Run(Crowd(ip)), ip), 2 * MINUTE - 1, 2 * MINUTE + 1) == 19
  {
    CrowdInOrder(ip);
    CrowdPasses(ip);
    CrowdCounts(2 * MINUTE - 1, 3 * MINUTE - 1);
    CrowdCounts(2 * MINUTE - 1, 2 * MINUTE + 1);
  }

  lemma InOrderJoin(a: seq<Attempt>, b: seq<Attempt>, now: int)
    requires Nondecreasing(a) && forall i :: 0 <= i < |a| ==> a[i].now <= now
    requires MINUTE <= now && forall i :: 0 <= i < |b| ==> b[i].now == now
    ensures Nondecreasing(a + b) && forall i :: 0 <= i < |a + b| ==> (a + b)[i].now <= now
  {
  }

  lemma CrowdInOrder(ip: string)
    ensures Nondecreasing(Crowd(ip))
  {
    var one := [] + [Attempt(ip, MINUTE)];
    InOrderJoin([], [Attempt(ip, MINUTE)], MINUTE);
    InOrderJoin(one, Repeat(Attempt(ip, 2 * MINUTE - 1), 9), 2 * MINUTE - 1);
    InOrderJoin(Early(ip), [Attempt(ip, 2 * MINUTE)], 2 * MINUTE);
    InOrderJoin(Early(ip) + [Attempt(ip, 2 * MINUTE)], Repeat(Attempt(ip, 2 * MINUTE), 9), 2 * MINUTE);
  }

  lemma CrowdCounts(lo: int, hi: int)
    requires MINUTE < lo <= 2 * MINUTE - 1 && 2 * MINUTE < hi
    ensures Count(CrowdTimes(), lo, hi) == 19
  {
    CountAppend([], MINUTE, lo, hi);
    CountRepeat([] + [MINUTE], 2 * MINUTE - 1, 9, lo, hi);
    CountAppend(EarlyTimes(), 2 * MINUTE, lo, hi);
    CountRepeat(EarlyTimes() + [2 * MINUTE], 2 * MINUTE, 9, lo, hi);
  }

  /** A new address finds no room exactly when the map is full of windows that are not over. */
  lemma FullIff(windows: Windows, ip: string, now: int)
    requires |windows| <= 4096
    ensures Full(windows, ip, now) <==>
      ip !in windows && |windows| >= 4096 && forall k :: k in windows ==> now - windows[k].started < 60000
  {
    assert CAPACITY == 4096 && MINUTE == 60000;
    var kept := Evicted(windows, now);
    SubsetOfSameSize(kept.Keys, windows.Keys);
    if k :| k in windows && Expired(windows[k], now) {
      assert k !in kept;
    } else {
      assert kept == windows;
    }
  }

  /** An address is over its quota exactly when ten of its attempts got through in its
      latest window and that is not over. */
  lemma QuotaIff(times: seq<int>, ledger: Windows, ip: string, before: int, now: int)
    requires Quiet(times, ledger, ip, before) && now >= 60000
    ensures WithinQuota(ledger, ip, now) <==>
      (ip in ledger && now - ledger[ip].started < 60000 ==> InMinute(times, ledger[ip].started) < 10)
  {
    assert MINUTE == 60000 && ATTEMPTS == 10;
  }

  /** An attempt is refused exactly when ten attempts of the address got through in its
      latest window and that is not over, even if it was evicted, or when the address is
      new to a map full of windows that are not over. */
  lemma RefusedIff(attempts: seq<Attempt>, a: Attempt)
    requires Nondecreasing(attempts + [a])
    ensures var w := Run(attempts);
      Allows(w.windows, a.ip, a.now) <==>
        && (a.ip in w.ledger && a.now - w.ledger[a.ip].started < 60000 ==>
             InMinute(Times(w, a.ip), w.ledger[a.ip].started) < 10)
        && (a.ip in w.windows || |w.windows| < 4096 || exists k :: k in w.windows && a.now - w.windows[k].started >= 60000)
  {
    var all := attempts + [a];
    assert forall i :: 0 <= i < |attempts| ==> all[i] == attempts[i];
    assert all[|attempts|] == a;
    RunKeeps(attempts);
    RunQuiet(attempts, a.ip);
    var w := Run(attempts);
    AgreeNext(w, a);
    QuotaIff(Times(w, a.ip), w.ledger, a.ip, w.clock, a.now);
    FullIff(w.windows, a.ip, a.now);
  }
}
