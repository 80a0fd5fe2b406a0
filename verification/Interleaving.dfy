/** Logins and sessions again, one transaction at a time: every view and update of a login or a
    request is a step of its own. */
module Interleaving {
  import opened Options
  import opened Sessions

  /** A request in AuthUser, between its transactions (rest/middleware/auth.go:73-241). */
  datatype Flight =
    | Arrived(bearer: Token, sent: Option<Token>)      // before CheckToken
    | Stale(bearer: Token, refresh: Token)             // expired; before CheckRefresh
    | Renewing(bearer: Token, refresh: Token)          // before RefreshIfValid
    | Renewed(bearer: Token)                           // before the second CheckToken
    | Valid(bearer: Token)                             // before GetContext
    | Over(out: Outcome)

  /** The database, the logins that have passed their check and not made their session yet, and the
      requests. */
  datatype Live = Live(db: DB, pending: seq<string>, flights: seq<Flight>)

  const BOOT := Live(EMPTY, [], [])

  datatype Tx =
    | CheckLogin(name: string, pw: string)                             // token.go:41
    | CommitLogin(i: nat, token: Token, refresh: Token, now: Time)     // token.go:57
    | Arrive(bearer: Token, sent: Option<Token>)
    | Advance(i: nat, now: Time)                                       // the next transaction of a request
    | DropSession(token: Token)                                        // DeleteToken
    | RemoveUser(name: string)                                         // users.Delete and auth.Disable
    | Whole(e: Event)                                                  // a handler with one Update

  predicate OneUpdate(e: Event) {
    e.Tickets? || e.DropTickets? || e.Incept? || e.NewLogin? || e.Restart?
  }

  function Renew(db: DB, bearer: Token, refresh: Token, now: Time): DB {
    if refresh in db.refresh then db.(sessions := db.sessions[bearer := Session(refresh, now + EXPIRATION)]) else db
  }

  /** What the next transaction of a request writes: RefreshIfValid is the only one that does. */
  function Written(db: DB, f: Flight, now: Time): DB {
    if f.Renewing? then Renew(db, f.bearer, f.refresh, now) else db
  }

  /** And what becomes of the request. */
  function Fly(db: DB, f: Flight, now: Time): Flight {
    match f
    case Arrived(bearer, refresh) =>
      (match CheckToken(db, bearer, now)
       case Good => Valid(bearer)
       case MissingSession => Over(Denied)
       case Expired => if refresh.None? then Over(Denied) else Stale(bearer, refresh.value))
    case Stale(bearer, refresh) => if refresh in db.refresh then Renewing(bearer, refresh) else Over(Denied)
    case Renewing(bearer, refresh) => if refresh in db.refresh then Renewed(bearer) else Over(Denied)
    case Renewed(bearer) => if CheckToken(db, bearer, now).Good? then Valid(bearer) else Over(Denied)
    case Valid(bearer) => Over(WithContext(db, bearer))
    case Over(_) => f
  }

  function Do(w: Live, tx: Tx): Live {
    match tx
    case CheckLogin(name, pw) => if CheckPasses(w.db, name, pw) then w.(pending := w.pending + [name]) else w
    case CommitLogin(i, token, refresh, now) =>
      if i < |w.pending| && token !in w.db.sessions && token !in w.db.contexts
      then w.(db := NewSession(w.db, token, refresh, w.pending[i], now),
              pending := w.pending[..i] + w.pending[i + 1..])
      else w
    case Arrive(bearer, sent) => w.(flights := w.flights + [Arrived(bearer, sent)])
    case Advance(i, now) =>
      if i < |w.flights|
      then w.(db := Written(w.db, w.flights[i], now),
              flights := w.flights[i := Fly(w.db, w.flights[i], now)])
      else w
    case DropSession(token) => w.(db := w.db.(sessions := w.db.sessions - {token}))
    case RemoveUser(name) => w.(db := Removed(w.db, name))
    case Whole(e) => if OneUpdate(e) then w.(db := Step(w.db, e)) else w
  }

  function DoAll(w: Live, txs: seq<Tx>, n: nat): Live
    requires n <= |txs|
  {
    if n == 0 then w else Do(DoAll(w, txs, n - 1), txs[n - 1])
  }

  lemma AdvanceLast(w: Live, fs: seq<Flight>, f: Flight, now: Time)
    requires w.flights == fs + [f]
    ensures Do(w, Advance(|fs|, now)) == Live(Written(w.db, f, now), w.pending, fs + [Fly(w.db, f, now)])
  {
  }

  /** The transactions of one request, which is number j. */
  function Alone(q: Request, j: nat): seq<Tx> {
    [Arrive(q.bearer, q.refresh), Advance(j, q.t1), Advance(j, q.t2), Advance(j, q.t2),
     Advance(j, q.t3), Advance(j, q.t3)]
  }

  /** The request and the database after k of them. */
  function Along(db: DB, q: Request, k: nat): (DB, Flight)
    requires 1 <= k <= 6
  {
    if k == 1 then (db, Arrived(q.bearer, q.refresh))
    else
      var (d, f) := Along(db, q, k - 1);
      var now := if k == 2 then q.t1 else if k <= 4 then q.t2 else q.t3;
      (Written(d, f, now), Fly(d, f, now))
  }

  lemma AlongIsAuthUser(db: DB, q: Request)
    ensures Along(db, q, 6) == (AuthUser(db, q).0, Over(AuthUser(db, q).1))
  {
    var f2 := Fly(db, Arrived(q.bearer, q.refresh), q.t1);
    var f3 := Fly(db, f2, q.t2);
    assert Along(db, q, 2) == (db, f2);
    assert Along(db, q, 3) == (db, f3);
    var (d, f4) := Along(db, q, 4);
    assert d == Written(db, f3, q.t2) && f4 == Fly(db, f3, q.t2);
    assert Along(db, q, 5) == (d, Fly(d, f4, q.t3));
  }

  lemma {:induction false} AloneIsAlong(w: Live, q: Request, k: nat)
    requires 1 <= k <= 6
    ensures var (d, f) := Along(w.db, q, k);
            DoAll(w, Alone(q, |w.flights|), k) == Live(d, w.pending, w.flights + [f])
  {
    var txs := Alone(q, |w.flights|);
    if k == 1 {
      assert DoAll(w, txs, 0) == w;
    } else {
      AloneIsAlong(w, q, k - 1);
      var (_, f) := Along(w.db, q, k - 1);
      var now := if k == 2 then q.t1 else if k <= 4 then q.t2 else q.t3;
      assert txs[k - 1] == Advance(|w.flights|, now);
      AdvanceLast(DoAll(w, txs, k - 1), w.flights, f, now);
    }
  }

  /** With nothing in between, they do what AuthUser does. */
  lemma AloneIsAuthUser(w: Live, q: Request)
    ensures DoAll(w, Alone(q, |w.flights|), 6)
         == Live(AuthUser(w.db, q).0, w.pending, w.flights + [Over(AuthUser(w.db, q).1)])
  {
    AloneIsAlong(w, q, 6);
    AlongIsAuthUser(w.db, q);
  }

  /** Where each transaction leads, by what the database holds at that moment. */
  lemma FlyIff(db: DB, b: Token, r: Token, sent: Option<Token>, now: Time)
    ensures Fly(db, Arrived(b, sent), now) == Valid(b) <==> b in db.sessions && now <= db.sessions[b].expires
    ensures Fly(db, Arrived(b, sent), now) == Stale(b, r) <==>
              b in db.sessions && db.sessions[b].expires < now && sent == Some(r)
    ensures Fly(db, Stale(b, r), now) == (if r in db.refresh then Renewing(b, r) else Over(Denied))
    ensures Fly(db, Renewing(b, r), now) == (if r in db.refresh then Renewed(b) else Over(Denied))
    ensures Fly(db, Renewed(b), now) == Valid(b) <==> b in db.sessions && now <= db.sessions[b].expires
    ensures Fly(db, Valid(b), now) == Over(if b in db.contexts then Served(db.contexts[b].user) else NoContext)
  {
  }

  /** A request writes only when it renews its session with a refresh token still on record. */
  lemma WritesIff(db: DB, f: Flight, now: Time)
    ensures var db' := Written(db, f, now);
            if f.Renewing? && f.refresh in db.refresh
            then db' == db.(sessions := db.sessions[f.bearer := Session(f.refresh, now + EXPIRATION)])
            else db' == db
  {
  }

  lemma {:induction false} DoAllPrefix(w: Live, a: seq<Tx>, b: seq<Tx>, n: nat)
    requires n <= |a|
    ensures DoAll(w, a + b, n) == DoAll(w, a, n)
  {
    if n > 0 {
      DoAllPrefix(w, a, b, n - 1);
    }
  }

  lemma LastTx(w: Live, a: seq<Tx>, tx: Tx)
    ensures DoAll(w, a + [tx], |a| + 1) == Do(DoAll(w, a, |a|), tx)
  {
    DoAllPrefix(w, a, [tx], |a|);
  }

  /** Each handler is some transactions with nothing in between, whatever else is under way. */
  lemma HandlerIsTxs(w: Live, e: Event) returns (txs: seq<Tx>)
    requires Agree(w.db)
    ensures DoAll(w, txs, |txs|).db == Step(w.db, e)
  {
    match e
    case LogIn(name, pw, token, refresh, now) =>
      txs := [CheckLogin(name, pw), CommitLogin(|w.pending|, token, refresh, now)];
      assert DoAll(w, txs, 0) == w;
      assert DoAll(w, txs, 1) == Do(w, txs[0]);
    case Handle(q) =>
      txs := Alone(q, |w.flights|);
      AloneIsAuthUser(w, q);
    case LogOut(q, t4) =>
      txs := Alone(q, |w.flights|);
      AloneIsAuthUser(w, q);
      if AuthUser(w.db, q).1.Served? && CheckToken(AuthUser(w.db, q).0, q.bearer, t4).Good? {
        LastTx(w, txs, DropSession(q.bearer));
        txs := txs + [DropSession(q.bearer)];
      }
    case Remove(name) =>
      txs := if name in w.db.users then [RemoveUser(name)] else [];
      assert DoAll(w, txs, 0) == w;
    case _ =>
      txs := [Whole(e)];
      assert DoAll(w, txs, 0) == w;
  }

  lemma {:induction false} DoAllKeyed(txs: seq<Tx>, n: nat)
    requires n <= |txs|
    ensures Keyed(DoAll(BOOT, txs, n).db)
  {
    if n > 0 {
      DoAllKeyed(txs, n - 1);
    }
  }

  /* ---------- sessions and contexts ---------- */

  /** A request refreshes a session whose context has gone since the request found it expired. */
  predicate Orphans(w: Live, tx: Tx) {
    && tx.Advance? && tx.i < |w.flights| && w.flights[tx.i].Renewing?
    && w.flights[tx.i].refresh in w.db.refresh && w.flights[tx.i].bearer !in w.db.contexts
  }

  /** Exactly: a transaction keeps sessions and contexts in agreement, unless it is such a refresh. */
  lemma DoAgreesIff(w: Live, tx: Tx)
    requires Agree(w.db)
    ensures Agree(Do(w, tx).db) <==> !Orphans(w, tx)
  {
    if tx.Whole? {
      StepAgrees(w.db, tx.e);
    }
  }

  /** The transaction removes the user whose context is t's. */
  predicate Takes(w: Live, tx: Tx, t: Token) {
    tx.RemoveUser? && t in TokensOf(w.db, tx.name)
  }

  /** The transaction makes a session t. */
  predicate Gives(w: Live, tx: Tx, t: Token) {
    tx.CommitLogin? && tx.token == t && tx.i < |w.pending| && t !in w.db.sessions && t !in w.db.contexts
  }

  lemma ContextStep(w: Live, tx: Tx, t: Token)
    ensures t in Do(w, tx).db.contexts <==> Gives(w, tx, t) || (t in w.db.contexts && !Takes(w, tx, t))
  {
  }

  predicate TakesAt(w: Live, txs: seq<Tx>, k: nat, t: Token) {
    k < |txs| && Takes(DoAll(w, txs, k), txs[k], t)
  }

  predicate GivesAt(w: Live, txs: seq<Tx>, k: nat, t: Token) {
    k < |txs| && Gives(DoAll(w, txs, k), txs[k], t)
  }

  predicate Has(w: Live, txs: seq<Tx>, n: nat, t: Token) {
    n <= |txs| && t in DoAll(w, txs, n).db.contexts
  }

  lemma HasStep(w: Live, txs: seq<Tx>, n: nat, t: Token)
    requires n < |txs|
    ensures Has(w, txs, n + 1, t) <==> GivesAt(w, txs, n, t) || (Has(w, txs, n, t) && !TakesAt(w, txs, n, t))
    ensures !(GivesAt(w, txs, n, t) && TakesAt(w, txs, n, t))
  {
    ContextStep(DoAll(w, txs, n), txs[n], t);
  }

  /** None of the transactions from..n makes a session t. */
  ghost predicate Ungiven(w: Live, txs: seq<Tx>, from: nat, n: nat, t: Token) {
    forall k: nat :: from <= k < n ==> !GivesAt(w, txs, k, t)
  }

  /** One of the first n takes t's context, and none after it gives it back. */
  ghost predicate Taken(w: Live, txs: seq<Tx>, n: nat, t: Token) {
    exists i: nat :: i < n && TakesAt(w, txs, i, t) && Ungiven(w, txs, i + 1, n, t)
  }

  lemma TakenStep(w: Live, txs: seq<Tx>, n: nat, t: Token)
    ensures Taken(w, txs, n + 1, t) <==> TakesAt(w, txs, n, t) || (Taken(w, txs, n, t) && !GivesAt(w, txs, n, t))
  {
    if TakesAt(w, txs, n, t) {
      assert Ungiven(w, txs, n + 1, n + 1, t);
    } else if Taken(w, txs, n, t) && !GivesAt(w, txs, n, t) {
      var i: nat :| i < n && TakesAt(w, txs, i, t) && Ungiven(w, txs, i + 1, n, t);
      assert Ungiven(w, txs, i + 1, n + 1, t);
    }
    if Taken(w, txs, n + 1, t) {
      var i: nat :| i < n + 1 && TakesAt(w, txs, i, t) && Ungiven(w, txs, i + 1, n + 1, t);
      assert i < n ==> Ungiven(w, txs, i + 1, n, t) && !GivesAt(w, txs, n, t);
    }
  }

  /** A context is missing exactly if a removal of its user has taken it since, or it was missing
      from the start. */
  lemma {:induction false} LostIff(w: Live, txs: seq<Tx>, n: nat, t: Token)
    requires n <= |txs|
    ensures !Has(w, txs, n, t) <==> Taken(w, txs, n, t) || (!Has(w, txs, 0, t) && Ungiven(w, txs, 0, n, t))
  {
    if n > 0 {
      LostIff(w, txs, n - 1, t);
      TakenStep(w, txs, n - 1, t);
      HasStep(w, txs, n - 1, t);
      assert Ungiven(w, txs, 0, n, t) <==> Ungiven(w, txs, 0, n - 1, t) && !GivesAt(w, txs, n - 1, t);
    }
  }

  /** Exactly when AuthUser meets a valid session without a context, for a request that has just found
      its session valid: the removal of its user comes between its CheckToken and its GetContext, or
      the session was an orphan already. */
  lemma NoContextIff(w0: Live, i: nat, now: Time, txs: seq<Tx>, n: nat, later: Time)
    requires i < |w0.flights| && !w0.flights[i].Valid?
    requires Do(w0, Advance(i, now)).flights[i].Valid? && n <= |txs|
    requires var w := Do(w0, Advance(i, now));
             i < |DoAll(w, txs, n).flights| && DoAll(w, txs, n).flights[i] == w.flights[i]
    ensures var w := Do(w0, Advance(i, now));
            var t, w' := w.flights[i].bearer, Do(DoAll(w, txs, n), Advance(i, later));
            && (w'.flights[i] == Over(NoContext)
                <==> Taken(w, txs, n, t) || (t !in w0.db.contexts && Ungiven(w, txs, 0, n, t)))
            && (Agree(w0.db) ==> t in w0.db.contexts)
  {
    var w := Do(w0, Advance(i, now));
    LostIff(w, txs, n, w.flights[i].bearer);
    assert DoAll(w, txs, 0) == w;
  }

  /** A request finds its session valid, its user is removed, and it finds no context; sessions and
      contexts agree all the while. */
  function LostRun(u: string): seq<Tx> {
    [Whole(NewLogin(u, "", 0)), CheckLogin(u, ""), CommitLogin(0, 1, 1, 0), Arrive(1, None), Advance(0, 5),
     RemoveUser(u), Advance(0, 5)]
  }

  lemma LostHappens(u: string)
    ensures var txs := LostRun(u);
            && Agree(DoAll(BOOT, txs, 5).db) && Agree(DoAll(BOOT, txs, 6).db)
            && DoAll(BOOT, txs, 5).flights == [Valid(1)] && DoAll(BOOT, txs, 7).flights == [Over(NoContext)]
  {
    var txs := LostRun(u);
    var d0 := Created(EMPTY, u, "", 0);
    var d1 := NewSession(d0, 1, 1, u, 0);
    assert DoAll(BOOT, txs, 0) == BOOT;
    assert DoAll(BOOT, txs, 1) == Live(d0, [], []);
    assert DoAll(BOOT, txs, 2) == Live(d0, [u], []);
    assert DoAll(BOOT, txs, 3) == Live(d1, [], []);
    assert DoAll(BOOT, txs, 4) == Live(d1, [], [Arrived(1, None)]);
    assert DoAll(BOOT, txs, 5) == Live(d1, [], [Valid(1)]);
    OneRemoved(u, d1);
    assert DoAll(BOOT, txs, 6) == Live(Removed(d1, u), [], [Valid(1)]);
  }

  lemma OneRemoved(u: string, db: DB)
    requires db == NewSession(Created(EMPTY, u, "", 0), 1, 1, u, 0)
    ensures Agree(db) && Agree(Removed(db, u)) && 1 !in Removed(db, u).contexts
  {
    assert Step(db, Remove(u)) == Removed(db, u);
    StepAgrees(db, Remove(u));
    assert db.contexts[1].token in TokensOf(db, u);
  }

  /** Two users log in; a request with the first's session, expired, and the second's refresh token
      has passed CheckRefresh when the first is removed. */
  function OrphanRun(a: string, b: string): seq<Tx> {
    [Whole(NewLogin(a, "", 0)), Whole(NewLogin(b, "", 0)), CheckLogin(a, ""), CommitLogin(0, 1, 1, 0),
     CheckLogin(b, ""), CommitLogin(0, 2, 2, 0), Arrive(1, Some(2)), Advance(0, 301), Advance(0, 301),
     RemoveUser(a), Advance(0, 301), Advance(0, 301), Advance(0, 301)]
  }

  function BothIn(a: string, b: string): DB {
    var logins := Created(Created(EMPTY, a, "", 0), b, "", 0);
    NewSession(NewSession(logins, 1, 1, a, 0), 2, 2, b, 0)
  }

  lemma BothLogIn(a: string, b: string)
    requires a != b
    ensures DoAll(BOOT, OrphanRun(a, b), 6) == Live(BothIn(a, b), [], [])
  {
    var txs := OrphanRun(a, b);
    var d0 := Created(EMPTY, a, "", 0);
    var d1 := Created(d0, b, "", 0);
    var d2 := NewSession(d1, 1, 1, a, 0);
    assert DoAll(BOOT, txs, 0) == BOOT;
    assert DoAll(BOOT, txs, 1) == Live(d0, [], []);
    assert DoAll(BOOT, txs, 2) == Live(d1, [], []);
    assert DoAll(BOOT, txs, 3) == Live(d1, [a], []);
    assert DoAll(BOOT, txs, 4) == Live(d2, [], []);
    assert DoAll(BOOT, txs, 5) == Live(d2, [b], []);
  }

  lemma FirstRemoved(db: DB, a: string, b: string)
    requires a != b && db == BothIn(a, b)
    ensures db.sessions[1] == Session(1, EXPIRATION) && 2 in db.refresh
    ensures 1 !in Removed(db, a).contexts && 2 in Removed(db, a).refresh
  {
    assert db.contexts[1] == Context(1, 1, a) && db.contexts[2] == Context(2, 2, b) && db.contexts.Keys == {1, 2};
    var d := db.(users := db.users - {a});
    assert d.contexts[1].token in TokensOf(d, a);
    assert forall r :: r in RefreshOf(d, a) ==> r == 1;
  }

  lemma BothThenStale(a: string, b: string)
    requires a != b
    ensures DoAll(BOOT, OrphanRun(a, b), 9) == Live(BothIn(a, b), [], [Renewing(1, 2)])
  {
    var txs, d := OrphanRun(a, b), BothIn(a, b);
    BothLogIn(a, b);
    FirstRemoved(d, a, b);
    assert DoAll(BOOT, txs, 7) == Live(d, [], [Arrived(1, Some(2))]);
    assert DoAll(BOOT, txs, 8) == Live(d, [], [Stale(1, 2)]);
  }

  lemma OrphanHappens(a: string, b: string)
    requires a != b
    ensures var w := DoAll(BOOT, OrphanRun(a, b), 13);
            !Agree(w.db) && w.flights == [Over(NoContext)]
  {
    var txs, d := OrphanRun(a, b), Removed(BothIn(a, b), a);
    BothThenStale(a, b);
    FirstRemoved(BothIn(a, b), a, b);
    assert DoAll(BOOT, txs, 10) == Live(d, [], [Renewing(1, 2)]);
    assert DoAll(BOOT, txs, 11) == Live(Renew(d, 1, 2, 301), [], [Renewed(1)]);
    assert DoAll(BOOT, txs, 12) == Live(Renew(d, 1, 2, 301), [], [Valid(1)]);
  }

  /* ---------- disabling ---------- */

  /** u is gone, and no login of u is under way. */
  ghost predicate Finished(w: Live, u: string) {
    Gone(w.db, u) && u !in w.pending
  }

  lemma DoFinished(w: Live, tx: Tx, u: string)
    requires Finished(w, u)
    ensures Finished(Do(w, tx), u)
  {
    if tx.Whole? {
      StaysGone(w.db, tx.e, u);
    }
  }

  lemma {:induction false} StaysFinished(w: Live, txs: seq<Tx>, n: nat, u: string)
    requires n <= |txs| && Finished(w, u)
    ensures Finished(DoAll(w, txs, n), u)
  {
    if n > 0 {
      StaysFinished(w, txs, n - 1, u);
      DoFinished(DoAll(w, txs, n - 1), txs[n - 1], u);
    }
  }

  /** The login stays disabled under every interleaving, whatever is under way. */
  lemma {:induction false} StaysDisabled(w: Live, txs: seq<Tx>, n: nat, u: string)
    requires n <= |txs| && u in w.db.logins && w.db.logins[u].disabled
    ensures var db := DoAll(w, txs, n).db; u in db.logins && db.logins[u].disabled
  {
    if n > 0 {
      StaysDisabled(w, txs, n - 1, u);
    }
  }

  /** The transaction makes a request one of u's. */
  predicate ServesNow(w: Live, tx: Tx, u: string) {
    && tx.Advance? && tx.i < |w.flights| && w.flights[tx.i].Valid?
    && WithContext(w.db, w.flights[tx.i].bearer) == Served(u)
  }

  ghost predicate NeverServed(w: Live, u: string) {
    forall txs: seq<Tx>, tx: Tx :: !ServesNow(DoAll(w, txs, |txs|), tx, u)
  }

  lemma FinishedIsNeverServed(w: Live, u: string)
    requires Finished(w, u)
    ensures NeverServed(w, u)
  {
    forall txs: seq<Tx>, tx: Tx ensures !ServesNow(DoAll(w, txs, |txs|), tx, u) {
      StaysFinished(w, txs, |txs|, u);
    }
  }

  lemma PendingIsServed(w: Live, u: string)
    requires u in w.pending
    ensures !NeverServed(w, u)
  {
    var i :| 0 <= i < |w.pending| && w.pending[i] == u;
    var t := FreshToken(w.db.sessions.Keys + w.db.contexts.Keys);
    assert t !in w.db.sessions && t !in w.db.contexts;
    var j := |w.flights|;
    var txs := [CommitLogin(i, t, 0, 0), Arrive(t, None), Advance(j, 0)];
    var d := NewSession(w.db, t, 0, u, 0);
    assert DoAll(w, txs, 0) == w;
    assert DoAll(w, txs, 1).db == d && DoAll(w, txs, 1).flights == w.flights;
    assert DoAll(w, txs, 2).db == d && DoAll(w, txs, 2).flights == w.flights + [Arrived(t, None)];
    assert DoAll(w, txs, 3).db == d && DoAll(w, txs, 3).flights[j] == Valid(t);
    assert ServesNow(DoAll(w, txs, |txs|), Advance(j, 0), u);
  }

  lemma RemovalIff(w: Live, u: string)
    requires Keyed(w.db) && u in w.db.logins
    ensures NeverServed(Do(w, RemoveUser(u)), u) <==> u !in w.pending
  {
    var w' := w.(db := Removed(w.db, u));
    assert Do(w, RemoveUser(u)) == w';
    RemovedGone(w.db, u);
    if u in w.pending {
      PendingIsServed(w', u);
    } else {
      FinishedIsNeverServed(w', u);
    }
  }

  /** Exactly, under every interleaving of transactions: once u's login has been disabled no later
      request is served as u, if and only if no login of u was between its check and its session
      at that moment. */
  lemma DisableHoldsIff(before: seq<Tx>, u: string)
    requires u in DoAll(BOOT, before, |before|).db.logins
    ensures var w := DoAll(BOOT, before, |before|);
            NeverServed(Do(w, RemoveUser(u)), u) <==> u !in w.pending
  {
    DoAllKeyed(before, |before|);
    RemovalIff(DoAll(BOOT, before, |before|), u);
  }

  /** A login passes its check, its user is removed, and the login is served. */
  function OvertakenRun(u: string): seq<Tx> {
    [Whole(NewLogin(u, "", 0)), CheckLogin(u, ""), RemoveUser(u), CommitLogin(0, 1, 1, 0), Arrive(1, None),
     Advance(0, 0), Advance(0, 0)]
  }

  lemma OvertakenHappens(u: string)
    ensures var w := DoAll(BOOT, OvertakenRun(u), 7);
            && u in w.db.logins && w.db.logins[u].disabled && u !in w.db.users
            && w.flights == [Over(Served(u))]
  {
    var txs := OvertakenRun(u);
    var d0 := Created(EMPTY, u, "", 0);
    var d1 := Removed(d0, u);
    var d2 := NewSession(d1, 1, 1, u, 0);
    assert DoAll(BOOT, txs, 0) == BOOT;
    assert DoAll(BOOT, txs, 1) == Live(d0, [], []);
    assert DoAll(BOOT, txs, 2) == Live(d0, [u], []);
    assert DoAll(BOOT, txs, 3) == Live(d1, [u], []);
    assert 1 !in d1.sessions && 1 !in d1.contexts;
    assert DoAll(BOOT, txs, 4) == Live(d2, [], []);
    assert DoAll(BOOT, txs, 5) == Live(d2, [], [Arrived(1, None)]);
    assert DoAll(BOOT, txs, 6) == Live(d2, [], [Valid(1)]);
  }
}
