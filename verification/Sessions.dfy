/** Logins, sessions and their contexts (auth/auth.go, auth/session.go, auth/context.go,
    incept/incept.go, rest/token.go, rest/middleware/auth.go), one handler at a time. */
module Sessions {
  import opened Options
  import opened Steps

  type Token = nat
  type Time = int

  const EXPIRATION: Time := 300

  /** A login record.  The salted digest is kept as the pair it is computed from. */
  datatype Login = Login(disabled: bool, digest: (string, nat), salt: nat)

  datatype Session = Session(refresh: Token, expires: Time)
  datatype Context = Context(token: Token, refresh: Token, user: string)

  datatype DB = DB(
    users: set<string>,
    logins: map<string, Login>,
    sessions: map<Token, Session>,
    contexts: map<Token, Context>,
    refresh: set<Token>,
    tickets: set<nat>)

  const EMPTY := DB({}, map[], map[], map[], {}, {})

  /* ---------- transactions ---------- */

  predicate CheckPasses(db: DB, name: string, pw: string) {
    name in db.logins && !db.logins[name].disabled && db.logins[name].digest == (pw, db.logins[name].salt)
  }

  function NewSession(db: DB, token: Token, refresh: Token, user: string, now: Time): DB {
    db.(sessions := db.sessions[token := Session(refresh, now + EXPIRATION)],
        contexts := db.contexts[token := Context(token, refresh, user)],
        refresh := db.refresh + {refresh})
  }

  datatype TokenState = MissingSession | Expired | Good

  function CheckToken(db: DB, t: Token, now: Time): TokenState {
    if t !in db.sessions then MissingSession else if db.sessions[t].expires < now then Expired else Good
  }

  /** tokens.Find: the tokens and refresh tokens of u's contexts. */
  function TokensOf(db: DB, u: string): set<Token> {
    set k | k in db.contexts && db.contexts[k].user == u :: db.contexts[k].token
  }

  function RefreshOf(db: DB, u: string): set<Token> {
    set k | k in db.contexts && db.contexts[k].user == u :: db.contexts[k].refresh
  }

  function Disable(db: DB, u: string): DB {
    db.(logins := if u in db.logins then db.logins[u := db.logins[u].(disabled := true)] else db.logins,
        refresh := db.refresh - RefreshOf(db, u),
        sessions := db.sessions - TokensOf(db, u),
        contexts := db.contexts - TokensOf(db, u))
  }

  /* ---------- requests ---------- */

  /** Who a handler is run for, or why not.  NoContext is the "valid session with no context"
      branch of AuthUser (auth.go:97-105, 212-221). */
  datatype Outcome = Served(user: string) | Denied | NoContext

  function WithContext(db: DB, t: Token): Outcome {
    if t in db.contexts then Served(db.contexts[t].user) else NoContext
  }

  /** A request's tokens, and the clock at the first check, the refresh and the second check. */
  datatype Request = Request(bearer: Token, refresh: Option<Token>, t1: Time, t2: Time, t3: Time)

  /** The database after AuthUser and what it decides. */
  function AuthUser(db: DB, q: Request): (DB, Outcome) {
    match CheckToken(db, q.bearer, q.t1)
    case MissingSession => (db, Denied)
    case Good => (db, WithContext(db, q.bearer))
    case Expired =>
      if q.refresh.None? || q.refresh.value !in db.refresh then (db, Denied)
      else
        var db' := db.(sessions := db.sessions[q.bearer := Session(q.refresh.value, q.t2 + EXPIRATION)]);
        (db', if CheckToken(db', q.bearer, q.t3).Good? then WithContext(db', q.bearer) else Denied)
  }

  datatype Event =
    | Tickets(ts: set<nat>)
    | DropTickets(ts: set<nat>)
    | Incept(ticket: nat, name: string, pw: string, salt: nat)
    | NewLogin(name: string, pw: string, salt: nat)                               // an admin, without ticket
    | LogIn(name: string, pw: string, token: Token, refresh: Token, now: Time)    // POST /tokens
    | Handle(q: Request)                                                          // any request behind AuthUser
    | LogOut(q: Request, t4: Time)                                                // DELETE /tokens
    | Remove(name: string)                                                        // DELETE /profile, /admin/users/:id
    | Restart                                                                     // ClearSessions

  function Created(db: DB, name: string, pw: string, salt: nat): DB {
    db.(users := db.users + {name}, logins := db.logins[name := Login(false, (pw, salt), salt)])
  }

  /** The final Update of DELETE /profile and DELETE /admin/users/:id. */
  function Removed(db: DB, name: string): DB {
    Disable(db.(users := db.users - {name}), name)
  }

  function Step(db: DB, e: Event): DB {
    match e
    case Tickets(ts) => db.(tickets := db.tickets + ts)
    case DropTickets(ts) => db.(tickets := db.tickets - ts)
    case Incept(ticket, name, pw, salt) =>
      if ticket !in db.tickets || name in db.users || name in db.logins then db
      else Created(db.(tickets := db.tickets - {ticket}), name, pw, salt)
    case NewLogin(name, pw, salt) =>
      if name in db.users || name in db.logins then db else Created(db, name, pw, salt)
    case LogIn(name, pw, token, refresh, now) =>
      // tokens are new random UUIDs
      if !CheckPasses(db, name, pw) || token in db.sessions || token in db.contexts then db
      else NewSession(db, token, refresh, name, now)
    case Handle(q) => AuthUser(db, q).0
    case LogOut(q, t4) =>
      // the token comes from the context, and is checked again
      var (db', out) := AuthUser(db, q);
      if !out.Served? then db'
      else
        var token := if q.bearer in db'.contexts then db'.contexts[q.bearer].token else q.bearer;
        if CheckToken(db', token, t4).Good? then db'.(sessions := db'.sessions - {token}) else db'
    case Remove(name) =>
      // an admin's request is checked, and a profile's own user is there
      if name in db.users then Removed(db, name) else db
    case Restart => db.(sessions := map[])
  }

  /** What a request event is served as; nothing for the others. */
  function Serves(db: DB, e: Event): Outcome {
    match e
    case Handle(q) => AuthUser(db, q).1
    case LogOut(q, _) => AuthUser(db, q).1
    case _ => Denied
  }

  function Run(db: DB, events: seq<Event>, n: nat): DB
    requires n <= |events|
  {
    if n == 0 then db else Step(Run(db, events, n - 1), events[n - 1])
  }

  /* ---------- as the code does it ---------- */

  class AuthStore {
    var users: set<string>
    var logins: map<string, Login>
    var sessions: map<Token, Session>
    var contexts: map<Token, Context>
    var refresh: set<Token>
    var tickets: set<nat>

    function Db(): DB
      reads this
    {
      DB(users, logins, sessions, contexts, refresh, tickets)
    }

    constructor ()
      ensures Db() == EMPTY
    {
      users, logins, sessions, contexts, refresh, tickets := {}, map[], map[], map[], {}, {};
    }

    /** auth.Disable (auth.go:87-170): the record, then the tokens found, bucket by bucket. */
    method DisableUser(u: string)
      modifies this
      ensures Db() == Disable(old(Db()), u)
    {
      if u in logins {
        logins := logins[u := logins[u].(disabled := true)];
      }
      var ts, rs := Find(u);
      refresh := refresh - rs;
      sessions := sessions - ts;
      contexts := contexts - ts;
    }

    /** tokens.Find (auth.go:92-109). */
    method Find(u: string) returns (ts: set<Token>, rs: set<Token>)
      ensures ts == TokensOf(Db(), u) && rs == RefreshOf(Db(), u)
    {
      ts, rs := {}, {};
      var left := contexts.Keys;
      while left != {}
        invariant left <= contexts.Keys
        invariant ts == set k | k in contexts.Keys - left && contexts[k].user == u :: contexts[k].token
        invariant rs == set k | k in contexts.Keys - left && contexts[k].user == u :: contexts[k].refresh
        decreases left
      {
        var k :| k in left;
        left := left - {k};
        if contexts[k].user == u {
          ts, rs := ts + {contexts[k].token}, rs + {contexts[k].refresh};
        }
      }
    }

    /** AuthUser with a context wanted (rest/middleware/auth.go:73-241). */
    method Authorize(q: Request) returns (out: Outcome)
      modifies this`sessions
      ensures (Db(), out) == AuthUser(old(Db()), q)
    {
      var state := CheckToken(Db(), q.bearer, q.t1);
      if state.Good? {
        if q.bearer !in contexts {
          return NoContext;
        }
        return Served(contexts[q.bearer].user);
      }
      if state.MissingSession? || q.refresh.None? || q.refresh.value !in refresh {
        return Denied;
      }
      sessions := sessions[q.bearer := Session(q.refresh.value, q.t2 + EXPIRATION)];
      state := CheckToken(Db(), q.bearer, q.t3);
      if !state.Good? {
        return Denied;
      }
      if q.bearer !in contexts {
        return NoContext;
      }
      out := Served(contexts[q.bearer].user);
    }
  }

  /* ---------- sessions and contexts agree ---------- */

  /** Each context is stored under its own token. */
  ghost predicate Keyed(db: DB) {
    forall t :: t in db.contexts ==> db.contexts[t].token == t
  }

  /** And each session has one. */
  ghost predicate Agree(db: DB) {
    Keyed(db) && forall t :: t in db.sessions ==> t in db.contexts
  }

  lemma StepAgrees(db: DB, e: Event)
    requires Agree(db)
    ensures Agree(Step(db, e))
  {
  }

  lemma {:induction false} RunAgrees(events: seq<Event>, n: nat)
    requires n <= |events|
    ensures Agree(Run(EMPTY, events, n))
  {
    if n > 0 {
      RunAgrees(events, n - 1);
      StepAgrees(Run(EMPTY, events, n - 1), events[n - 1]);
    }
  }

  /** In every reachable state, across login, refresh, logout, disabling and restart, no request
      meets a valid session without a context. */
  lemma SessionHasContext(events: seq<Event>, n: nat, q: Request)
    requires n <= |events|
    ensures !AuthUser(Run(EMPTY, events, n), q).1.NoContext?
  {
    RunAgrees(events, n);
  }

  /* ---------- what a refresh asks for ---------- */

  /** Exactly: with an expired session, a request is served, and as the session's user, if and only
      if it brings any refresh token on record and the second check comes in time.  Whose refresh
      token it is plays no part. */
  lemma RefreshServesIff(db: DB, q: Request)
    requires Agree(db) && CheckToken(db, q.bearer, q.t1).Expired?
    ensures AuthUser(db, q).1 == Served(db.contexts[q.bearer].user)
       <==> q.refresh.Some? && q.refresh.value in db.refresh && q.t3 <= q.t2 + EXPIRATION
  {
  }

  /** Two users log in; after the session of the first has expired, a request with it and the
      refresh token of the second is served as the first. */
  lemma ForeignRefreshServes(a: string, b: string) returns (before: seq<Event>, q: Request)
    requires a != b
    ensures var db := Run(EMPTY, before, |before|);
            && q.bearer in db.contexts && q.refresh.Some? && q.refresh.value in db.refresh
            && q.refresh.value != db.contexts[q.bearer].refresh
            && Serves(db, Handle(q)) == Served(a)
  {
    before := [NewLogin(a, "", 0), NewLogin(b, "", 0), LogIn(a, "", 1, 1, 0), LogIn(b, "", 2, 2, 0)];
    q := Request(1, Some(2), EXPIRATION + 1, EXPIRATION + 1, EXPIRATION + 1);
    var d0 := Created(EMPTY, a, "", 0);
    var d1 := Created(d0, b, "", 0);
    var d2 := NewSession(d1, 1, 1, a, 0);
    assert Run(EMPTY, before, 0) == EMPTY;
    assert Run(EMPTY, before, 1) == d0;
    assert Run(EMPTY, before, 2) == d1;
    assert Run(EMPTY, before, 3) == d2;
    assert Run(EMPTY, before, 4) == NewSession(d2, 2, 2, b, 0);
  }

  /* ---------- disabling is permanent ---------- */

  /** u has a disabled login and no context. */
  ghost predicate Gone(db: DB, u: string) {
    && u in db.logins && db.logins[u].disabled
    && forall t :: t in db.contexts ==> db.contexts[t].user != u
  }

  lemma RemovedGone(db: DB, u: string)
    requires Keyed(db) && u in db.logins
    ensures Gone(Removed(db, u), u)
    ensures forall t :: t in db.contexts && db.contexts[t].user == u ==>
              t !in Removed(db, u).sessions && db.contexts[t].refresh !in Removed(db, u).refresh
  {
  }

  lemma StaysGone(db: DB, e: Event, u: string)
    requires Gone(db, u)
    ensures Gone(Step(db, e), u) && Serves(db, e) != Served(u)
  {
  }

  /** Every user has a login, and a login without its user is gone. */
  ghost predicate Paired(db: DB) {
    && db.users <= db.logins.Keys
    && forall u :: u in db.logins ==> u in db.users || Gone(db, u)
  }

  lemma StepPaired(db: DB, e: Event, u: string)
    requires Paired(db) && Keyed(db) && u in Step(db, e).logins
    ensures u in Step(db, e).users || Gone(Step(db, e), u)
  {
    if Gone(db, u) {
      StaysGone(db, e, u);
    } else if e == Remove(u) {
      RemovedGone(db, u);
    }
  }

  lemma StepKeepsPaired(db: DB, e: Event)
    requires Paired(db) && Keyed(db)
    ensures Paired(Step(db, e))
  {
    forall u | u in Step(db, e).logins ensures u in Step(db, e).users || Gone(Step(db, e), u) {
      StepPaired(db, e, u);
    }
  }

  lemma {:induction false} RunPaired(events: seq<Event>, n: nat)
    requires n <= |events|
    ensures Paired(Run(EMPTY, events, n))
  {
    if n > 0 {
      RunPaired(events, n - 1);
      RunAgrees(events, n - 1);
      StepKeepsPaired(Run(EMPTY, events, n - 1), events[n - 1]);
    }
  }

  lemma {:induction false} RunStaysGone(db: DB, events: seq<Event>, n: nat, u: string)
    requires n <= |events| && Gone(db, u)
    ensures Gone(Run(db, events, n), u)
  {
    if n > 0 {
      RunStaysGone(db, events, n - 1, u);
      StaysGone(Run(db, events, n - 1), events[n - 1], u);
    }
  }

  /** Once u's existing login has been disabled, no later request is served as u, and no later
      step enables or recreates the login. */
  lemma DisableIsPermanent(before: seq<Event>, u: string, after: seq<Event>, n: nat)
    requires u in Run(EMPTY, before, |before|).logins && n < |after|
    ensures var db := Run(Step(Run(EMPTY, before, |before|), Remove(u)), after, n);
            && u in db.logins && db.logins[u].disabled
            && Serves(db, after[n]) != Served(u)
  {
    var db := Run(EMPTY, before, |before|);
    RunAgrees(before, |before|);
    RunPaired(before, |before|);
    RemovedGone(db, u);
    RunStaysGone(Step(db, Remove(u)), after, n, u);
    StaysGone(Run(Step(db, Remove(u)), after, n), after[n], u);
  }

  /* ---------- what is left alone ---------- */

  /** Exactly: a removal takes the user, the contexts, sessions and refresh tokens of its contexts,
      and disables its login; nobody else's change. */
  lemma RemovedExactly(db: DB, u: string)
    requires Keyed(db)
    ensures var db' := Removed(db, u);
            && db'.users == db.users - {u} && db'.tickets == db.tickets
            && (forall t :: t in db'.contexts <==> t in db.contexts && db.contexts[t].user != u)
            && (forall t :: t in db'.contexts ==> db'.contexts[t] == db.contexts[t])
            && (forall t :: t in db'.sessions <==>
                  t in db.sessions && (t in db.contexts ==> db.contexts[t].user != u))
            && (forall t :: t in db'.sessions ==> db'.sessions[t] == db.sessions[t])
            && (forall r :: r in db'.refresh <==>
                  r in db.refresh &&
                  !(exists t :: t in db.contexts && db.contexts[t].user == u && db.contexts[t].refresh == r))
            && db'.logins.Keys == db.logins.Keys
            && (forall v :: v in db.logins ==>
                  db'.logins[v] == if v == u then db.logins[v].(disabled := true) else db.logins[v])
  {
  }

  /* ---------- who is served ---------- */

  /** The session of this bearer is good at t1, or a refresh token on record makes it so. */
  predicate Admits(db: DB, q: Request) {
    && q.bearer in db.sessions
    && (q.t1 <= db.sessions[q.bearer].expires
        || (q.refresh.Some? && q.refresh.value in db.refresh && q.t3 <= q.t2 + EXPIRATION))
  }

  /** Exactly: a request is served as the user of its bearer's context if and only if it is
      admitted, whatever its refresh header holds while the session lasts; otherwise it is denied.
      Only a refresh changes anything, and only the bearer's session. */
  lemma ServedIff(db: DB, q: Request)
    requires Agree(db)
    ensures AuthUser(db, q).1 == if Admits(db, q) then Served(db.contexts[q.bearer].user) else Denied
    ensures var db' := AuthUser(db, q).0;
            && db' == db.(sessions := db'.sessions)
            && (forall t :: t != q.bearer ==> (t in db'.sessions <==> t in db.sessions))
            && (forall t :: t != q.bearer && t in db.sessions ==> db'.sessions[t] == db.sessions[t])
            && (q.bearer in db'.sessions <==> q.bearer in db.sessions)
            && (q.bearer in db.sessions ==>
                  db'.sessions[q.bearer] ==
                    if db.sessions[q.bearer].expires < q.t1 && q.refresh.Some? && q.refresh.value in db.refresh
                    then Session(q.refresh.value, q.t2 + EXPIRATION) else db.sessions[q.bearer])
  {
  }

  /** A request that logs out, in time, ends its session and no other; after that its bearer is
      denied.  Contexts and refresh tokens stay. */
  lemma LogOutEnds(db: DB, q: Request, t4: Time, q': Request)
    requires Agree(db) && Admits(db, q) && q'.bearer == q.bearer
    requires t4 <= AuthUser(db, q).0.sessions[q.bearer].expires
    ensures var db' := Step(db, LogOut(q, t4));
            && db' == db.(sessions := db'.sessions) && db'.sessions.Keys == db.sessions.Keys - {q.bearer}
            && (forall t :: t in db'.sessions ==> db'.sessions[t] == db.sessions[t])
            && Serves(db', Handle(q')) == Denied
  {
    ServedIff(db, q);
  }

  /** After a restart nobody is served before logging in again. */
  lemma RestartEnds(db: DB, q: Request)
    ensures Serves(Step(db, Restart), Handle(q)) == Denied
  {
  }

  /* ---------- logins and tickets over runs ---------- */

  /** The event makes the login of u: the name is free, and an inception has its ticket. */
  predicate MakesNow(db: DB, e: Event, u: string) {
    && u !in db.users && u !in db.logins
    && match e
       case Incept(ticket, name, _, _) => name == u && ticket in db.tickets
       case NewLogin(name, _, _) => name == u
       case _ => false
  }

  predicate MakesLogin(events: seq<Event>, k: nat, u: string) {
    k < |events| && MakesNow(Run(EMPTY, events, k), events[k], u)
  }

  function Password(e: Event): string
    requires e.Incept? || e.NewLogin?
  {
    e.pw
  }

  /** The login of u was made with this password. */
  ghost predicate PasswordIs(events: seq<Event>, n: nat, u: string, pw: string) {
    exists k: nat :: k < n && MakesLogin(events, k, u) && Password(events[k]) == pw
  }

  lemma StepLogin(db: DB, e: Event, u: string)
    ensures var db' := Step(db, e);
            && (u in db'.logins <==> u in db.logins || MakesNow(db, e, u))
            && (u in db.logins ==>
                  db'.logins[u].digest == db.logins[u].digest && db'.logins[u].salt == db.logins[u].salt)
            && (MakesNow(db, e, u) ==> db'.logins[u] == Login(false, (e.pw, e.salt), e.salt))
  {
  }

  /** A login is there exactly if it was made. */
  lemma {:induction false} LoginsIff(events: seq<Event>, n: nat, u: string)
    requires n <= |events|
    ensures u in Run(EMPTY, events, n).logins <==> exists k: nat :: k < n && MakesLogin(events, k, u)
  {
    if n > 0 {
      LoginsIff(events, n - 1, u);
      StepLogin(Run(EMPTY, events, n - 1), events[n - 1], u);
      assert MakesLogin(events, n - 1, u) <==> MakesNow(Run(EMPTY, events, n - 1), events[n - 1], u);
    }
  }

  /** It keeps the password it was made with, whatever happens to its user. */
  lemma {:induction false} PasswordKept(events: seq<Event>, n: nat, u: string, pw: string)
    requires n <= |events| && u in Run(EMPTY, events, n).logins
    ensures var login := Run(EMPTY, events, n).logins[u];
            login.digest.1 == login.salt && (PasswordIs(events, n, u, pw) <==> login.digest.0 == pw)
  {
    var db, e := Run(EMPTY, events, n - 1), events[n - 1];
    StepLogin(db, e, u);
    assert MakesLogin(events, n - 1, u) <==> MakesNow(db, e, u);
    if u in db.logins {
      PasswordKept(events, n - 1, u, pw);
    } else {
      LoginsIff(events, n - 1, u);
    }
  }

  predicate Leaves(events: seq<Event>, k: nat, u: string) {
    k < |events| && events[k] == Remove(u)
  }

  predicate UserAt(events: seq<Event>, n: nat, u: string) {
    n <= |events| && u in Run(EMPTY, events, n).users
  }

  /** A user is there exactly if its login was made and it has not been removed since. */
  lemma UsersIff(events: seq<Event>, n: nat, u: string)
    requires n <= |events|
    ensures UserAt(events, n, u)
       <==> Since((k: nat) => MakesLogin(events, k, u), (k: nat) => Leaves(events, k, u), n)
  {
    forall k: nat | k < n
      ensures UserAt(events, k + 1, u) <==> MakesLogin(events, k, u) || (UserAt(events, k, u) && !Leaves(events, k, u))
    {
      assert Run(EMPTY, events, k + 1) == Step(Run(EMPTY, events, k), events[k]);
    }
    HoldsSince((k: nat) => UserAt(events, k, u), (k: nat) => MakesLogin(events, k, u),
               (k: nat) => Leaves(events, k, u), n);
  }

  /** A user has an enabled login. */
  lemma {:induction false} UsersEnabled(events: seq<Event>, n: nat, u: string)
    requires n <= |events| && u in Run(EMPTY, events, n).users
    ensures u in Run(EMPTY, events, n).logins && !Run(EMPTY, events, n).logins[u].disabled
  {
    if n > 0 {
      var db, e := Run(EMPTY, events, n - 1), events[n - 1];
      if u in db.users { UsersEnabled(events, n - 1, u); }
    }
  }

  /** Exactly, in every reachable state: logging in with a new token gets requests with it served, as
      that user and for as long as the session lasts, if and only if the user is there and the
      password is the one the login was made with. */
  lemma LogInServesIff(events: seq<Event>, n: nat, u: string, pw: string,
                       token: Token, refresh: Token, now: Time, q: Request)
    requires n <= |events| && q.bearer == token && q.t1 <= now + EXPIRATION
    requires var db := Run(EMPTY, events, n); token !in db.sessions && token !in db.contexts
    ensures Serves(Step(Run(EMPTY, events, n), LogIn(u, pw, token, refresh, now)), Handle(q)) == Served(u)
       <==> u in Run(EMPTY, events, n).users && PasswordIs(events, n, u, pw)
  {
    RunPaired(events, n);
    if u in Run(EMPTY, events, n).logins { PasswordKept(events, n, u, pw); }
    if u in Run(EMPTY, events, n).users { UsersEnabled(events, n, u); }
  }

  predicate Issues(events: seq<Event>, k: nat, ticket: nat) {
    k < |events| && events[k].Tickets? && ticket in events[k].ts
  }

  /** Event k drops the ticket, or makes a login with it. */
  predicate Spends(events: seq<Event>, k: nat, ticket: nat) {
    && k < |events|
    && match events[k]
       case DropTickets(ts) => ticket in ts
       case Incept(t, name, _, _) => t == ticket && MakesLogin(events, k, name)
       case _ => false
  }

  predicate TicketAt(events: seq<Event>, n: nat, ticket: nat) {
    n <= |events| && ticket in Run(EMPTY, events, n).tickets
  }

  /** A ticket is good exactly if it was issued and has not been dropped or used since; so it makes
      one login at most. */
  lemma TicketsIff(events: seq<Event>, n: nat, ticket: nat)
    requires n <= |events|
    ensures TicketAt(events, n, ticket)
       <==> Since((k: nat) => Issues(events, k, ticket), (k: nat) => Spends(events, k, ticket), n)
  {
    forall k: nat | k < n
      ensures TicketAt(events, k + 1, ticket)
         <==> Issues(events, k, ticket) || (TicketAt(events, k, ticket) && !Spends(events, k, ticket))
    {
      assert Run(EMPTY, events, k + 1) == Step(Run(EMPTY, events, k), events[k]);
    }
    HoldsSince((k: nat) => TicketAt(events, k, ticket), (k: nat) => Issues(events, k, ticket),
               (k: nat) => Spends(events, k, ticket), n);
  }

  /* ---------- and an existing login is needed ---------- */

  lemma {:induction false} FreshToken(s: set<Token>) returns (t: Token)
    ensures forall x :: x in s ==> x < t
    decreases s
  {
    if s == {} {
      t := 0;
    } else {
      var x :| x in s;
      var rest := FreshToken(s - {x});
      t := if x < rest then rest else x + 1;
      assert forall y :: y in s ==> y == x || y in s - {x};
    }
  }

  /** auth.Disable of a name without a login leaves it free: in every reachable state it can be made
      and served afterwards.  No handler gets there, since every user has a login (RunPaired). */
  lemma UnknownComesBack(before: seq<Event>, u: string) returns (after: seq<Event>)
    requires u !in Run(EMPTY, before, |before|).logins
    ensures |after| == 3 && Serves(Run(Disable(Run(EMPTY, before, |before|), u), after, 2), after[2]) == Served(u)
  {
    var db := Run(EMPTY, before, |before|);
    RunPaired(before, |before|);
    var d := Disable(db, u);
    var t := FreshToken(d.sessions.Keys + d.contexts.Keys);
    assert t !in d.sessions && t !in d.contexts;
    var q := Request(t, None, 0, 0, 0);
    after := [NewLogin(u, "", 0), LogIn(u, "", t, 0, 0), Handle(q)];
    assert Run(d, after, 0) == d;
    assert Run(d, after, 1) == Created(d, u, "", 0);
    assert Run(d, after, 2) == NewSession(Created(d, u, "", 0), t, 0, u, 0);
  }
}
