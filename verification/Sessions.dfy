/** Users and sessions: logins in several steps, racing with password resets, disabled
    accounts, logouts and purges. */
module Sessions {
  import opened Common

  /** Users are known by their unique, lasting names. */
  type Name = string
  type Token = string

  datatype User = User(active: bool, hash: string)

  datatype Session = Session(user: Name, expires: int)

  datatype Tables = Tables(users: map<Name, User>, sessions: map<Token, Session>)

  // ----- the transactions

  function CreateUser(t: Tables, name: Name, hash: string): Result<Tables> {
    if name in t.users then Err(Conflict) else Ok(t.(users := t.users[name := User(true, hash)]))
  }

  /** The update of a user and the removal of the user's sessions, in one transaction. */
  function UpdateUser(t: Tables, name: Name, user: User): Result<Tables> {
    if name !in t.users then Err(NotFound)
    else Ok(Tables(t.users[name := user], map k | k in t.sessions && t.sessions[k].user != name :: t.sessions[k]))
  }

  function SetPassword(t: Tables, name: Name, hash: string): Result<Tables> {
    if name !in t.users then Err(NotFound) else UpdateUser(t, name, t.users[name].(hash := hash))
  }

  function DisableUser(t: Tables, name: Name): Result<Tables> {
    if name !in t.users then Err(NotFound) else UpdateUser(t, name, t.users[name].(active := false))
  }

  /** `verified` is the user as read before the password was checked. */
  function CreateSession(t: Tables, token: Token, name: Name, verified: User, expires: int): Result<Tables> {
    if name !in t.users || !t.users[name].active || t.users[name].hash != verified.hash then Err(Unauthorized)
    else if token in t.sessions then Err(Conflict)
    else Ok(t.(sessions := t.sessions[token := Session(name, expires)]))
  }

  function FindSession(t: Tables, token: Token, now: int): Option<Name> {
    if token in t.sessions && t.sessions[token].expires > now
      && t.sessions[token].user in t.users && t.users[t.sessions[token].user].active
    then Some(t.sessions[token].user) else None
  }

  function DeleteSession(t: Tables, token: Token): Tables {
    t.(sessions := t.sessions - {token})
  }

  function PurgeSessions(t: Tables, now: int): Tables {
    t.(sessions := map k | k in t.sessions && t.sessions[k].expires > now :: t.sessions[k])
  }

  /** The repository over its connection. */
  class AuthRepository {
    var users: map<Name, User>
    var sessions: map<Token, Session>

    function Snapshot(): Tables
      reads this
    {
      Tables(users, sessions)
    }

    static function Outcome(begun: Tables, result: Result<Tables>): Tables {
      if result.Ok? then result.value else begun
    }

    method UpdateUserRow(name: Name, active: bool, hash: string) returns (ok: bool)
      modifies this
      ensures Snapshot() == Outcome(old(Snapshot()), UpdateUser(old(Snapshot()), name, User(active, hash)))
      ensures ok == UpdateUser(old(Snapshot()), name, User(active, hash)).Ok?
    {
      if name !in users {
        return false;
      }
      users := users[name := User(active, hash)];
      sessions := map k | k in sessions && sessions[k].user != name :: sessions[k];
      return true;
    }

    method SetUserPassword(name: Name, hash: string) returns (ok: bool)
      modifies this
      ensures ok <==> name in old(users)
      ensures ok ==> users == old(users)[name := User(old(users)[name].active, hash)]
      ensures ok ==> forall t :: t in sessions <==> t in old(sessions) && old(sessions)[t].user != name
      ensures Snapshot() == Outcome(old(Snapshot()), SetPassword(old(Snapshot()), name, hash))
      ensures ok == SetPassword(old(Snapshot()), name, hash).Ok?
    {
      if name !in users {
        return false;
      }
      ok := UpdateUserRow(name, users[name].active, hash);
    }

    method Disable(name: Name) returns (ok: bool)
      modifies this
      ensures ok <==> name in old(users)
      ensures ok ==> users == old(users)[name := User(false, old(users)[name].hash)]
      ensures ok ==> forall t :: t in sessions <==> t in old(sessions) && old(sessions)[t].user != name
      ensures Snapshot() == Outcome(old(Snapshot()), DisableUser(old(Snapshot()), name))
      ensures ok == DisableUser(old(Snapshot()), name).Ok?
    {
      if name !in users {
        return false;
      }
      ok := UpdateUserRow(name, false, users[name].hash);
    }

    method InsertSession(token: Token, name: Name, verified: User, expires: int) returns (failure: Option<Error>)
      modifies this
      ensures failure.None? <==>
        && name in old(users) && old(users)[name].active && old(users)[name].hash == verified.hash && token !in old(sessions)
      ensures users == old(users)
      ensures sessions == if failure.None? then old(sessions)[token := Session(name, expires)] else old(sessions)
      ensures Snapshot() == Outcome(old(Snapshot()), CreateSession(old(Snapshot()), token, name, verified, expires))
      ensures failure.None? <==> CreateSession(old(Snapshot()), token, name, verified, expires).Ok?
    {
      if name !in users {
        return Some(Unauthorized);
      }
      var current := users[name];
      if !current.active || current.hash != verified.hash {
        return Some(Unauthorized);
      }
      if token in sessions {
        return Some(Conflict);
      }
      sessions := sessions[token := Session(name, expires)];
      return None;
    }

    /** Login without interference: a token exactly for an active user and the right
        password, and nothing changes otherwise. */
    method Login(matches: (string, string) -> bool, name: Name, password: string, token: Token, expires: int)
      returns (r: Result<Token>)
      modifies this
      ensures r.Ok? <==> name in old(users) && old(users)[name].active && matches(old(users)[name].hash, password) && token !in old(sessions)
      ensures r.Ok? ==> r.value == token && Snapshot() == old(Snapshot()).(sessions := old(sessions)[token := Session(name, expires)])
      ensures r.Err? ==> Snapshot() == old(Snapshot())
    {
      if name !in users {
        return Err(Unauthorized);
      }
      var user := users[name];
      if !matches(user.hash, password) || !user.active {
        return Err(Unauthorized);
      }
      var failure := InsertSession(token, name, user, expires);
      if failure.Some? {
        return Err(failure.value);
      }
      return Ok(token);
    }
  }

  // ----- interleavings

  /** A login under way: whose row it read, and whether the password was right. */
  datatype Login = Login(name: Name, password: string, user: User, verified: bool)

  /** Tokens are random; `issued` holds every token ever drawn, with the password that
      was given for it. */
  datatype World = World(tables: Tables, now: int, logins: map<nat, Login>, issued: map<Token, string>)

  datatype Step =
    | Tick(elapsed: nat)
    | Provision(name: Name, hash: string)
    | Read(pid: nat, name: Name, password: string)
    | Verify(pid: nat)
    | Issue(pid: nat, token: Token, expires: int)
    | Abandon(pid: nat)
    | Reset(name: Name, hash: string)
    | Disabled(name: Name)
    | Logout(token: Token)
    | Purge

  function Apply(w: World, r: Result<Tables>): World {
    if r.Ok? then w.(tables := r.value) else w
  }

  function Next(matches: (string, string) -> bool, w: World, s: Step): World {
    match s
    case Tick(elapsed) => w.(now := w.now + elapsed)
    case Provision(name, hash) => Apply(w, CreateUser(w.tables, name, hash))
    case Read(pid, name, password) =>
      if name in w.tables.users then w.(logins := w.logins[pid := Login(name, password, w.tables.users[name], false)]) else w
    case Verify(pid) =>
      if pid !in w.logins then w
      else
        var l := w.logins[pid];
        if matches(l.user.hash, l.password) && l.user.active then w.(logins := w.logins[pid := l.(verified := true)])
        else w.(logins := w.logins - {pid})
    case Issue(pid, token, expires) =>
      // A fresh token is assumed.
      if pid !in w.logins || !w.logins[pid].verified || token in w.issued then w
      else
        var l := w.logins[pid];
        Apply(w.(logins := w.logins - {pid}, issued := w.issued[token := l.password]),
              CreateSession(w.tables, token, l.name, l.user, expires))
    case Abandon(pid) => w.(logins := w.logins - {pid})
    case Reset(name, hash) => Apply(w, SetPassword(w.tables, name, hash))
    case Disabled(name) => Apply(w, DisableUser(w.tables, name))
    case Logout(token) => w.(tables := DeleteSession(w.tables, token))
    case Purge => w.(tables := PurgeSessions(w.tables, w.now))
  }

  function Run(matches: (string, string) -> bool, w: World, steps: seq<Step>): World {
    if steps == [] then w else Next(matches, Run(matches, w, steps[..|steps| - 1]), steps[|steps| - 1])
  }

  const START := World(Tables(map[], map[]), 0, map[], map[])

  function Authenticate(w: World, token: Token): Option<Name> {
    FindSession(w.tables, token, w.now)
  }

  // ----- every session is backed by the current password

  ghost predicate Backed(matches: (string, string) -> bool, w: World, token: Token) {
    token in w.tables.sessions ==>
      && token in w.issued
      && var name := w.tables.sessions[token].user;
      name in w.tables.users && w.tables.users[name].active && matches(w.tables.users[name].hash, w.issued[token])
  }

  ghost predicate Checked(matches: (string, string) -> bool, w: World, pid: nat) {
    pid in w.logins && w.logins[pid].verified ==> matches(w.logins[pid].user.hash, w.logins[pid].password)
  }

  lemma StepBacks(matches: (string, string) -> bool, w: World, s: Step, token: Token)
    requires Backed(matches, w, token)
    requires s.Issue? ==> Checked(matches, w, s.pid)
    ensures Backed(matches, Next(matches, w, s), token)
  {
  }

  lemma {:induction false} RunBacks(matches: (string, string) -> bool, steps: seq<Step>, token: Token)
    ensures Backed(matches, Run(matches, START, steps), token)
  {
    if steps != [] {
      var n := |steps| - 1;
      RunBacks(matches, steps[..n], token);
      if steps[n].Issue? {
        RunChecks(matches, steps[..n], steps[n].pid);
      }
      StepBacks(matches, Run(matches, START, steps[..n]), steps[n], token);
    }
  }

  lemma {:induction false} RunChecks(matches: (string, string) -> bool, steps: seq<Step>, pid: nat)
    ensures Checked(matches, Run(matches, START, steps), pid)
  {
    if steps != [] {
      RunChecks(matches, steps[..|steps| - 1], pid);
    }
  }

  /** Whoever authenticates is an active user whose token was given for the password that
      is current now: a login that raced with a reset or a disable leaves nothing behind. */
  lemma OnlyTheCurrentPassword(matches: (string, string) -> bool, steps: seq<Step>, token: Token)
    ensures var w := Run(matches, START, steps);
      Authenticate(w, token).Some? ==>
        && token in w.issued
        && var user := w.tables.users[Authenticate(w, token).value];
        user.active && matches(user.hash, w.issued[token])
  {
    RunBacks(matches, steps, token);
  }

  /** A token that has lost its session never gets one again. */
  lemma {:induction false} GoneForGood(matches: (string, string) -> bool, w: World, steps: seq<Step>, token: Token)
    requires token in w.issued && token !in w.tables.sessions
    ensures token in Run(matches, w, steps).issued && token !in Run(matches, w, steps).tables.sessions
  {
    if steps != [] {
      GoneForGood(matches, w, steps[..|steps| - 1], token);
    }
  }

  /** After a reset, a disable or a logout, no token drawn before opens that account
      again, whatever follows. */
  lemma Revoked(matches: (string, string) -> bool, w: World, s: Step, steps: seq<Step>, token: Token)
    requires token in w.issued
    requires match s
      case Reset(name, _) => token in w.tables.sessions ==> w.tables.sessions[token].user == name && name in w.tables.users
      case Disabled(name) => token in w.tables.sessions ==> w.tables.sessions[token].user == name && name in w.tables.users
      case Logout(t) => t == token
      case _ => false
    ensures Authenticate(Run(matches, Next(matches, w, s), steps), token) == None
  {
    GoneForGood(matches, Next(matches, w, s), steps, token);
  }

  // ----- purging cannot be seen

  function WithoutPurges(steps: seq<Step>): seq<Step> {
    if steps == [] then []
    else
      var n := |steps| - 1;
      WithoutPurges(steps[..n]) + if steps[n].Purge? then [] else [steps[n]]
  }

  /** The worlds differ in expired sessions alone. */
  ghost predicate Alike(a: World, b: World) {
    && a.tables.users == b.tables.users && a.now == b.now && a.logins == b.logins && a.issued == b.issued
    && (forall k :: k in a.tables.sessions ==> k in b.tables.sessions && b.tables.sessions[k] == a.tables.sessions[k])
    && (forall k :: k in b.tables.sessions && b.tables.sessions[k].expires > b.now ==> k in a.tables.sessions)
    && (forall k :: k in b.tables.sessions ==> k in b.issued)
  }

  lemma AlikeIssue(matches: (string, string) -> bool, a: World, b: World, s: Step)
    requires Alike(a, b) && s.Issue?
    ensures Alike(Next(matches, a, s), Next(matches, b, s))
  {
  }

  lemma AlikeChange(matches: (string, string) -> bool, a: World, b: World, s: Step)
    requires Alike(a, b) && (s.Provision? || s.Reset? || s.Disabled?)
    ensures Alike(Next(matches, a, s), Next(matches, b, s))
  {
  }

  lemma AlikeStep(matches: (string, string) -> bool, a: World, b: World, s: Step)
    requires Alike(a, b)
    ensures Alike(Next(matches, a, s), if s.Purge? then b else Next(matches, b, s))
  {
    if s.Issue? {
      AlikeIssue(matches, a, b, s);
    } else if s.Provision? || s.Reset? || s.Disabled? {
      AlikeChange(matches, a, b, s);
    }
  }

  lemma {:induction false} RunAlike(matches: (string, string) -> bool, steps: seq<Step>)
    ensures Alike(Run(matches, START, steps), Run(matches, START, WithoutPurges(steps)))
  {
    if steps != [] {
      var n := |steps| - 1;
      RunAlike(matches, steps[..n]);
      AlikeStep(matches, Run(matches, START, steps[..n]), Run(matches, START, WithoutPurges(steps[..n])), steps[n]);
      var kept := WithoutPurges(steps[..n]);
      assert (kept + [steps[n]])[..|kept|] == kept;
      assert kept + [] == kept;
    }
  }

  /** However often expired sessions are purged, every token authenticates as it would
      have without any purge. */
  lemma PurgingIsInvisible(matches: (string, string) -> bool, steps: seq<Step>, token: Token)
    ensures Authenticate(Run(matches, START, steps), token) == Authenticate(Run(matches, START, WithoutPurges(steps)), token)
  {
    RunAlike(matches, steps);
  }

  // ----- what the transactions store

  /** Only the named user changes, and loses every session; all other sessions stay. */
  ghost predicate Changes(t: Tables, r: Tables, name: Name, user: User) {
    && r.users == t.users[name := user]
    && (forall k :: k in r.sessions <==> k in t.sessions && t.sessions[k].user != name)
    && (forall k :: k in r.sessions ==> r.sessions[k] == t.sessions[k])
  }

  /** A reset stores the new hash and keeps the flag; a disable clears the flag and keeps the
      hash; both revoke; an unknown user is reported. */
  lemma UpdatesStore(t: Tables, name: Name, hash: string)
    ensures SetPassword(t, name, hash).Ok? <==> name in t.users
    ensures DisableUser(t, name).Ok? <==> name in t.users
    ensures name !in t.users ==> SetPassword(t, name, hash) == DisableUser(t, name) == Err(NotFound)
    ensures name in t.users ==>
      && Changes(t, SetPassword(t, name, hash).value, name, User(t.users[name].active, hash))
      && Changes(t, DisableUser(t, name).value, name, User(false, t.users[name].hash))
  {
  }

  /** A new user is active with the given hash; a name is given once. */
  lemma CreationStores(t: Tables, name: Name, hash: string)
    ensures var r := CreateUser(t, name, hash);
      if name in t.users then r == Err(Conflict)
      else r.Ok? && r.value.users == t.users[name := User(true, hash)] && r.value.sessions == t.sessions
  {
  }

  /** A token opens the account of a session that has not expired, as long as the user is
      active. */
  lemma FoundIff(t: Tables, token: Token, now: int, name: Name)
    ensures FindSession(t, token, now) == Some(name) <==>
      && token in t.sessions && t.sessions[token].expires > now && t.sessions[token].user == name
      && name in t.users && t.users[name].active
  {
  }

  /** A logout ends one session, a purge those that have expired. */
  lemma EndedIff(t: Tables, token: Token, now: int, k: Token)
    ensures DeleteSession(t, token).users == PurgeSessions(t, now).users == t.users
    ensures k in DeleteSession(t, token).sessions <==> k in t.sessions && k != token
    ensures k in DeleteSession(t, token).sessions ==> DeleteSession(t, token).sessions[k] == t.sessions[k]
    ensures k in PurgeSessions(t, now).sessions <==> k in t.sessions && t.sessions[k].expires > now
    ensures k in PurgeSessions(t, now).sessions ==> PurgeSessions(t, now).sessions[k] == t.sessions[k]
  {
  }

  // ----- after a reset

  /** Nobody resets the password of the user again. */
  predicate NoReset(steps: seq<Step>, name: Name) {
    forall s <- steps :: s.Reset? ==> s.name != name
  }

  lemma {:induction false} HashStays(matches: (string, string) -> bool, w: World, name: Name, hash: string, steps: seq<Step>)
    requires name in w.tables.users && w.tables.users[name].hash == hash && NoReset(steps, name)
    ensures var r := Run(matches, w, steps); name in r.tables.users && r.tables.users[name].hash == hash
  {
    if steps != [] {
      var n := |steps| - 1;
      assert forall s <- steps[..n] :: s in steps;
      HashStays(matches, w, name, hash, steps[..n]);
      assert steps[n] in steps;
      HashStep(matches, Run(matches, w, steps[..n]), name, hash, steps[n]);
    }
  }

  lemma HashStep(matches: (string, string) -> bool, w: World, name: Name, hash: string, s: Step)
    requires name in w.tables.users && w.tables.users[name].hash == hash && (s.Reset? ==> s.name != name)
    ensures var r := Next(matches, w, s); name in r.tables.users && r.tables.users[name].hash == hash
  {
  }

  lemma {:induction false} RunJoin(matches: (string, string) -> bool, w: World, a: seq<Step>, b: seq<Step>)
    ensures Run(matches, w, a + b) == Run(matches, Run(matches, w, a), b)
  {
    if b == [] {
      assert a + b == a;
    } else {
      assert (a + b)[..|a + b| - 1] == a + b[..|b| - 1];
      RunJoin(matches, w, a, b[..|b| - 1]);
    }
  }

  lemma ResetStep(matches: (string, string) -> bool, w: World, name: Name, hash: string, token: Token)
    requires name in w.tables.users
    ensures var r := Next(matches, w, Reset(name, hash));
      && name in r.tables.users && r.tables.users[name].hash == hash && r.issued == w.issued
      && !Opens(r, token, name)
  {
  }

  /** The token has a session of the user. */
  predicate Opens(w: World, token: Token, name: Name) {
    token in w.tables.sessions && w.tables.sessions[token].user == name
  }

  /** A token that was drawn gets no session of another user later. */
  lemma {:induction false} OwnerStays(matches: (string, string) -> bool, w: World, steps: seq<Step>, token: Token, name: Name)
    requires token in w.issued && !Opens(w, token, name)
    ensures token in Run(matches, w, steps).issued && !Opens(Run(matches, w, steps), token, name)
  {
    if steps != [] {
      OwnerStays(matches, w, steps[..|steps| - 1], token, name);
    }
  }

  /** A reset takes effect at once and for good: until the next one the row has the new hash,
      and whoever holds a session of the user was given the token after the reset, for a
      password that matches the new hash, whenever the login began. */
  lemma AfterReset(matches: (string, string) -> bool, before: seq<Step>, name: Name, hash: string, after: seq<Step>, token: Token)
    requires name in Run(matches, START, before).tables.users && NoReset(after, name)
    ensures var w := Run(matches, START, before + [Reset(name, hash)] + after);
      && name in w.tables.users && w.tables.users[name].hash == hash
      && (token in w.tables.sessions && w.tables.sessions[token].user == name ==>
            token in w.issued && matches(hash, w.issued[token]) && token !in Run(matches, START, before).issued)
  {
    var w := Run(matches, START, before);
    var reset := Next(matches, w, Reset(name, hash));
    RunNext(matches, START, before, Reset(name, hash));
    RunJoin(matches, START, before + [Reset(name, hash)], after);
    ResetStep(matches, w, name, hash, token);
    HashStays(matches, reset, name, hash, after);
    RunBacks(matches, before + [Reset(name, hash)] + after, token);
    if token in w.issued {
      OwnerStays(matches, reset, after, token, name);
    }
  }

  lemma RunNext(matches: (string, string) -> bool, w: World, steps: seq<Step>, s: Step)
    ensures Run(matches, w, steps + [s]) == Next(matches, Run(matches, w, steps), s)
  {
    assert (steps + [s])[..|steps|] == steps;
  }
}
