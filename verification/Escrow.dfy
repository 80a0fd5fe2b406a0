/** Where every coin of a balance comes from: the escrow invariant of the task ledger over
    whole runs of handlers, and exactly which requests break it. */
module Escrow {
  import opened Options
  import opened Coin
  import opened Ledger

  datatype Grant = Grant(user: string, coin: int64)

  /** The database, the names that ever had a login (logins are disabled, never removed), what
      was granted, and the tasks deleted so far. */
  datatype World = World(db: DB, logins: set<string>, grants: seq<Grant>, deleted: seq<Task>)

  const EMPTY := World(DB(map[], map[]), {}, [], [])

  datatype Event =
    | Create(name: string, coin: int64)               // incept, POST /admin/logins
    | Remove(name: string)                            // DELETE /profile, DELETE /admin/users/:id
    | Patch(name: string, coin: int64)                // PATCH /admin/profiles/:id?addCoin=
    | Post(user: string, id: ID, sent: Task)          // POST /tasks; id is a new UUID
    | PutTask(q: Request)                             // PUT /tasks/:id
    | Delete(user: string, id: ID)                    // DELETE /tasks/:id

  predicate PostAccepted(db: DB, user: string, id: ID, sent: Task) {
    && sent.group.owner == user && sent.group.readers.Members? && sent.group.writers.Members?
    && AllUsers(sent, user) <= db.users.Keys && id !in db.tasks
  }

  predicate PutAccepted(db: DB, q: Request) {
    Prepare(db, q).Commit? && Succeeds(db, Prepare(db, q).ops)
  }

  /** The task POST stores (task.go:172-173). */
  function Posted(user: string, sent: Task): Task
    requires sent.group.readers.Members? && sent.group.writers.Members?
  {
    sent.(group := sent.group.(readers := Members(sent.group.readers.m[user := true]),
                               writers := Members(sent.group.writers.m[user := true])))
  }

  function Step(w: World, e: Event): World {
    match e
    case Create(name, coin) =>
      if name in w.db.users || name in w.logins then w
      else w.(db := w.db.(users := w.db.users[name := coin]), logins := w.logins + {name},
              grants := w.grants + [Grant(name, coin)])
    case Remove(name) => w.(db := w.db.(users := w.db.users - {name}))
    case Patch(name, coin) =>
      if name !in w.db.users then w
      else w.(db := Update(w.db, [CheckUsersExist({name}), AddCoin(name, coin)]),
              grants := w.grants + [Grant(name, coin)])
    case Post(user, id, sent) =>
      if !PostAccepted(w.db, user, id, sent) then w
      else w.(db := w.db.(tasks := w.db.tasks[id := Posted(user, sent)]))
    case PutTask(q) => w.(db := Put(w.db, q))
    case Delete(user, id) =>
      if id !in w.db.tasks || w.db.tasks[id].group.owner != user then w
      else w.(db := w.db.(tasks := w.db.tasks - {id}), deleted := w.deleted + [w.db.tasks[id]])
  }

  function Run(events: seq<Event>, n: nat): World
    requires n <= |events|
  {
    if n == 0 then EMPTY else Step(Run(events, n - 1), events[n - 1])
  }

  /* ---------- the account ---------- */

  /** What a task means for u's balance: a completed one pays its completer from its owner. */
  function Share(t: Task, u: string): int {
    if !t.completed then 0
    else (if t.completedBy == u then t.bounty else 0) - (if t.group.owner == u then t.bounty else 0)
  }

  function SharesIn(tasks: map<ID, Task>, u: string): map<ID, int> {
    map id | id in tasks :: Share(tasks[id], u)
  }

  function Granted(grants: seq<Grant>, u: string): int {
    if grants == [] then 0
    else Granted(grants[..|grants| - 1], u) + if grants[|grants| - 1].user == u then grants[|grants| - 1].coin else 0
  }

  function Settled(deleted: seq<Task>, u: string): int {
    if deleted == [] then 0
    else Settled(deleted[..|deleted| - 1], u) + Share(deleted[|deleted| - 1], u)
  }

  /** Grants, plus deleted tasks, plus standing ones. */
  ghost function Account(w: World, u: string): int {
    Granted(w.grants, u) + Settled(w.deleted, u) + Sum(SharesIn(w.db.tasks, u))
  }

  /** The escrow invariant: every balance is its account, modulo 2^64. */
  ghost predicate Escrow(w: World) {
    forall u :: u in w.db.users ==> w.db.users[u] == Wrap64(Account(w, u))
  }

  /** A name that never had a login has an empty account. */
  ghost predicate Known(w: World) {
    && w.db.users.Keys <= w.logins
    && forall u :: u !in w.logins ==>
         && Granted(w.grants, u) == 0 && Settled(w.deleted, u) == 0
         && forall id :: id in w.db.tasks ==> Share(w.db.tasks[id], u) == 0
  }

  /* ---------- what leaks ---------- */

  /** A new task that claims to be done by someone else. */
  predicate PostLeaks(db: DB, user: string, id: ID, sent: Task) {
    && PostAccepted(db, user, id, sent)
    && sent.completed && sent.bounty != 0 && sent.completedBy != sent.group.owner
  }

  /** The completed task changes hands, or a writer other than its completer un-completes it
      (task.go:458-461): either way somebody's share moves and no coin does. */
  predicate Cheats(user: string, was: Task, sent: Task) {
    && was.completed && was.bounty != 0
    && if user == was.group.owner
       then sent.completed && sent.group.owner != was.group.owner
       else !sent.completed && was.completedBy != user && was.completedBy != was.group.owner
  }

  /** An accepted PUT that cheats a user who still has an account. */
  predicate PutLeaks(db: DB, q: Request) {
    && PutAccepted(db, q) && q.id in db.tasks
    && var was := db.tasks[q.id];
    && Cheats(q.user, was, q.sent)
    && (was.group.owner in db.users || was.completedBy in db.users)
  }

  predicate Leaks(w: World, e: Event) {
    match e
    case Post(user, id, sent) => PostLeaks(w.db, user, id, sent)
    case PutTask(q) => PutLeaks(w.db, q)
    case _ => false
  }

  /* ---------- sums ---------- */

  lemma SharesPut(tasks: map<ID, Task>, id: ID, t: Task, u: string)
    ensures Sum(SharesIn(tasks[id := t], u))
         == Sum(SharesIn(tasks, u)) + Share(t, u) - if id in tasks then Share(tasks[id], u) else 0
  {
    assert SharesIn(tasks[id := t], u) == SharesIn(tasks, u)[id := Share(t, u)];
    SumUpdate(SharesIn(tasks, u), id, Share(t, u));
  }

  lemma SharesDelete(tasks: map<ID, Task>, id: ID, u: string)
    requires id in tasks
    ensures Sum(SharesIn(tasks - {id}, u)) == Sum(SharesIn(tasks, u)) - Share(tasks[id], u)
  {
    assert SharesIn(tasks - {id}, u) == SharesIn(tasks, u) - {id};
    SumRemove(SharesIn(tasks, u), id);
  }

  lemma {:induction false} SumOfZeros(m: map<ID, int>)
    requires forall id :: id in m ==> m[id] == 0
    ensures Sum(m) == 0
    decreases |m|
  {
    if id :| id in m {
      SumRemove(m, id);
      SumOfZeros(m - {id});
    }
  }

  lemma Appended(grants: seq<Grant>, g: Grant, deleted: seq<Task>, t: Task, u: string)
    ensures Granted(grants + [g], u) == Granted(grants, u) + if g.user == u then g.coin else 0
    ensures Settled(deleted + [t], u) == Settled(deleted, u) + Share(t, u)
  {
  }

  /* ---------- what a PUT pays ---------- */

  /** The coin the first n operations add to u. */
  function CoinFor(ops: seq<Op>, u: string, n: nat): int
    requires n <= |ops|
  {
    if n == 0 then 0
    else CoinFor(ops, u, n - 1) + if ops[n - 1].AddCoin? && ops[n - 1].user == u then ops[n - 1].coin else 0
  }

  lemma {:induction false} RunPays(db: DB, ops: seq<Op>, n: nat, u: string)
    requires n <= |ops| && RunTo(db, ops, n).Some? && u in db.users
    ensures u in RunTo(db, ops, n).value.users
    ensures RunTo(db, ops, n).value.users[u] == Wrap64(db.users[u] + CoinFor(ops, u, n))
  {
    if n > 0 {
      RunPays(db, ops, n - 1, u);
      var op := ops[n - 1];
      if op.AddCoin? && op.user == u {
        WrapAdd(db.users[u] + CoinFor(ops, u, n - 1), op.coin);
      }
    } else {
      WrapFits(db.users[u]);
    }
  }

  predicate Cong(a: int, b: int) {
    (a - b) % TWO64 == 0
  }

  lemma CongWrap(a: int, b: int)
    requires Cong(a, b)
    ensures Wrap64(a) == Wrap64(b)
  {
  }

  lemma CoinFor4(ops: seq<Op>, u: string)
    requires |ops| == 4
    ensures CoinFor(ops, u, 4) == CoinFor([ops[0]], u, 1) + CoinFor([ops[1]], u, 1)
                                + CoinFor([ops[2]], u, 1) + CoinFor([ops[3]], u, 1)
  {
    assert CoinFor(ops, u, 1) == CoinFor([ops[0]], u, 1);
    assert CoinFor(ops, u, 2) == CoinFor(ops, u, 1) + CoinFor([ops[1]], u, 1);
    assert CoinFor(ops, u, 3) == CoinFor(ops, u, 2) + CoinFor([ops[2]], u, 1);
  }

  lemma CoinFor2(ops: seq<Op>, u: string)
    requires |ops| == 2 && !ops[0].AddCoin? && !ops[1].AddCoin?
    ensures CoinFor(ops, u, 2) == 0
  {
    assert CoinFor(ops, u, 1) == 0;
  }

  /** The coin a plan moves, less what the change of the task's share asks for: nothing, or 2^64
      where negating the bounty overflows.  A plan that cheats moves none. */
  lemma PlanGap(user: string, id: ID, was: Task, sent: Task, all: set<string>, now: Time, u: string)
    requires sent.group.writers.Members?
    ensures var plan := Decide(user, id, was, sent, all, now);
            Stores(plan) ==>
              var paid, change := CoinFor(plan.ops, u, |plan.ops|), Share(Stored(plan), u) - Share(was, u);
              if Cheats(user, was, sent) then paid == 0 else paid - change in {0, TWO64, -TWO64}
  {
    var plan := Decide(user, id, was, sent, all, now);
    if plan.Commit? {
      Cancels(was.bounty);
      Cancels(sent.bounty);
      if |plan.ops| == 2 { CoinFor2(plan.ops, u); } else { CoinFor4(plan.ops, u); }
    }
  }

  /** The coin a plan moves is what the change of the task's share asks for, unless it cheats;
      then it moves none. */
  lemma PlanPays(user: string, id: ID, was: Task, sent: Task, all: set<string>, now: Time, u: string)
    requires sent.group.writers.Members?
    ensures var plan := Decide(user, id, was, sent, all, now);
            Stores(plan) ==>
              var paid, change := CoinFor(plan.ops, u, |plan.ops|), Share(Stored(plan), u) - Share(was, u);
              if Cheats(user, was, sent) then paid == 0 else Cong(paid, change)
  {
    PlanGap(user, id, was, sent, all, now, u);
  }

  lemma Pays(balance: int, account: int, paid: int, change: int)
    requires balance == Wrap64(account) && Cong(paid, change)
    ensures Wrap64(balance + paid) == Wrap64(account + change)
  {
    WrapAdd(account, paid);
    CongWrap(account + paid, account + change);
  }

  lemma WrapDiffers(x: int, b: int)
    requires -TWO63 <= b < TWO63 && b != 0
    ensures Wrap64(x + b) != Wrap64(x) && Wrap64(x - b) != Wrap64(x)
  {
    WrapChanges(x, b);
    WrapChanges(x - b, b);
  }

  /* ---------- commits planned on an older task ---------- */

  /** The plan made from what was seen commits now. */
  predicate Lands(db: DB, seen: DB, q: Request) {
    Prepare(seen, q).Commit? && Succeeds(db, Prepare(seen, q).ops)
  }

  function Landed(w: World, seen: DB, q: Request): World {
    w.(db := Finish(w.db, Prepare(seen, q)))
  }

  function ShareAt(tasks: map<ID, Task>, id: ID, u: string): int {
    if id in tasks then Share(tasks[id], u) else 0
  }

  lemma LandedTask(w: World, seen: DB, q: Request, u: string)
    requires Lands(w.db, seen, q)
    ensures q.id in seen.tasks
    ensures var plan := Prepare(seen, q);
            && Stores(plan)
            && Account(Landed(w, seen, q), u)
               == Account(w, u) + Share(Stored(plan), u) - ShareAt(w.db.tasks, q.id, u)
  {
    var was, sent, all := seen.tasks[q.id], Normalize(q.sent, q.user), AllUsers(q.sent, q.user);
    FinishTasks(w.db, seen, q);
    DecideShape(q.user, q.id, was, sent, all, q.now);
    SharesPut(w.db.tasks, q.id, Stored(Prepare(seen, q)), u);
  }

  /** The share of u the plan takes to be standing: that of the task loaded, unless it cheats. */
  function Basis(seen: DB, q: Request, u: string): int
    requires q.id in seen.tasks && Prepare(seen, q).Commit?
  {
    var was, plan := seen.tasks[q.id], Prepare(seen, q);
    DecideShape(q.user, q.id, was, Normalize(q.sent, q.user), AllUsers(q.sent, q.user), q.now);
    if Cheats(q.user, was, q.sent) then Share(Stored(plan), u) else Share(was, u)
  }

  lemma LandedPays(seen: DB, q: Request, u: string)
    requires Prepare(seen, q).Commit?
    ensures q.id in seen.tasks
    ensures var plan := Prepare(seen, q);
            && Stores(plan)
            && Cong(CoinFor(plan.ops, u, |plan.ops|), Share(Stored(plan), u) - Basis(seen, q, u))
  {
    var was, sent, all := seen.tasks[q.id], Normalize(q.sent, q.user), AllUsers(q.sent, q.user);
    DecideShape(q.user, q.id, was, sent, all, q.now);
    PlanPays(q.user, q.id, was, sent, all, q.now, u);
  }

  lemma LandedCoin(db: DB, seen: DB, q: Request, u: string)
    requires Lands(db, seen, q) && u in db.users
    ensures var ops := Prepare(seen, q).ops;
            var db' := Finish(db, Prepare(seen, q));
            u in db'.users && db'.users[u] == Wrap64(db.users[u] + CoinFor(ops, u, |ops|))
  {
    RunPays(db, Prepare(seen, q).ops, |Prepare(seen, q).ops|, u);
  }

  lemma LandedBalance(w: World, seen: DB, q: Request, u: string)
    requires Lands(w.db, seen, q) && u in w.db.users && w.db.users[u] == Wrap64(Account(w, u))
    ensures q.id in seen.tasks && u in Landed(w, seen, q).db.users
    ensures Landed(w, seen, q).db.users[u]
         == Wrap64(Account(Landed(w, seen, q), u) + ShareAt(w.db.tasks, q.id, u) - Basis(seen, q, u))
  {
    var ops := Prepare(seen, q).ops;
    LandedTask(w, seen, q, u);
    LandedPays(seen, q, u);
    LandedCoin(w.db, seen, q, u);
    var paid, change := CoinFor(ops, u, |ops|), Share(Stored(Prepare(seen, q)), u) - Basis(seen, q, u);
    Pays(w.db.users[u], Account(w, u), paid, change);
    assert Account(w, u) + change
        == Account(Landed(w, seen, q), u) + ShareAt(w.db.tasks, q.id, u) - Basis(seen, q, u);
  }

  lemma WrapCong(x: int, y: int)
    ensures Wrap64(x) == Wrap64(y) <==> Cong(x, y)
  {
    if Cong(x, y) { CongWrap(x, y); }
  }

  lemma StaleUser(w: World, seen: DB, q: Request, u: string)
    requires Lands(w.db, seen, q) && u in w.db.users && w.db.users[u] == Wrap64(Account(w, u))
    ensures q.id in seen.tasks && u in Landed(w, seen, q).db.users
    ensures Landed(w, seen, q).db.users[u] == Wrap64(Account(Landed(w, seen, q), u))
       <==> Cong(ShareAt(w.db.tasks, q.id, u), Basis(seen, q, u))
  {
    LandedBalance(w, seen, q, u);
    var a, now, basis := Account(Landed(w, seen, q), u), ShareAt(w.db.tasks, q.id, u), Basis(seen, q, u);
    WrapCong(a + now - basis, a);
  }

  /** Exactly, for a PUT that lands on a task changed since it was loaded: escrow is kept if and only
      if, for each existing user, the share of the task as it stands is, modulo 2^64, the one the
      plan was made on. */
  lemma StaleExact(w: World, seen: DB, q: Request)
    requires Escrow(w) && Lands(w.db, seen, q)
    ensures q.id in seen.tasks
    ensures Escrow(Landed(w, seen, q))
       <==> forall u :: u in w.db.users ==> Cong(ShareAt(w.db.tasks, q.id, u), Basis(seen, q, u))
  {
    var w' := Landed(w, seen, q);
    FinishTasks(w.db, seen, q);
    PlanConserves(w.db, seen, q);
    forall u | u in w.db.users
      ensures u in w'.db.users
      ensures w'.db.users[u] == Wrap64(Account(w', u)) <==> Cong(ShareAt(w.db.tasks, q.id, u), Basis(seen, q, u))
    {
      StaleUser(w, seen, q, u);
    }
  }

  /* ---------- steps ---------- */

  /** A PUT keeps the set of users. */
  lemma PutKeepsUsers(db: DB, q: Request)
    ensures Put(db, q).users.Keys == db.users.Keys
  {
    PlanConserves(db, db, q);
  }

  /** A PUT with nothing in between lands on the task it has loaded. */
  lemma PutLands(w: World, q: Request)
    ensures PutAccepted(w.db, q) ==> Lands(w.db, w.db, q) && Step(w, PutTask(q)) == Landed(w, w.db, q)
    ensures !PutAccepted(w.db, q) ==> Step(w, PutTask(q)) == w
  {
  }

  /** How a cheating plan changes the shares: of the old owner, and of the completer if a writer
      un-completes; nobody else's, save that of a new owner. */
  lemma CheatChange(seen: DB, q: Request, u: string)
    requires Prepare(seen, q).Commit? && q.id in seen.tasks && Cheats(q.user, seen.tasks[q.id], q.sent)
    ensures var was := seen.tasks[q.id];
            var change := Basis(seen, q, u) - Share(was, u);
            && (u == was.group.owner ==> change == was.bounty)
            && (q.user != was.group.owner && u == was.completedBy ==> change == -(was.bounty as int))
            && (q.user != was.group.owner && u != was.group.owner && u != was.completedBy ==> change == 0)
  {
    DecideShape(q.user, q.id, seen.tasks[q.id], Normalize(q.sent, q.user), AllUsers(q.sent, q.user), q.now);
  }

  lemma PutKeepsEscrow(w: World, q: Request)
    requires Escrow(w) && !PutLeaks(w.db, q)
    ensures Escrow(Step(w, PutTask(q)))
  {
    PutLands(w, q);
    if PutAccepted(w.db, q) {
      StaleExact(w, w.db, q);
      PlanUsers(w.db, q);
      forall u | u in w.db.users ensures Cong(ShareAt(w.db.tasks, q.id, u), Basis(w.db, q, u)) {
        if Cheats(q.user, w.db.tasks[q.id], q.sent) { CheatChange(w.db, q, u); }
      }
    }
  }

  lemma NotCong(x: int, y: int, b: int64)
    requires b != 0 && (y - x == b || x - y == b)
    ensures !Cong(x, y)
  {
  }

  /** A leaking PUT finds a user whose share it moves without paying. */
  lemma LeakMisses(db: DB, q: Request) returns (u: string)
    requires PutLeaks(db, q)
    ensures u in db.users && !Cong(ShareAt(db.tasks, q.id, u), Basis(db, q, u))
  {
    var was := db.tasks[q.id];
    PlanUsers(db, q);
    u := if was.group.owner in db.users then was.group.owner else was.completedBy;
    CheatChange(db, q, u);
    NotCong(Share(was, u), Basis(db, q, u), was.bounty);
  }

  lemma PutBreaksEscrow(w: World, q: Request)
    requires Escrow(w) && PutLeaks(w.db, q)
    ensures !Escrow(Step(w, PutTask(q)))
  {
    PutLands(w, q);
    StaleExact(w, w.db, q);
    var u := LeakMisses(w.db, q);
  }

  lemma PutKeepsKnown(w: World, q: Request)
    requires Known(w) && !PutLeaks(w.db, q)
    ensures Known(Step(w, PutTask(q)))
  {
    PutKeepsUsers(w.db, q);
    PutTasks(w.db, q);
    if PutAccepted(w.db, q) {
      var was, plan := w.db.tasks[q.id], Prepare(w.db, q);
      PlanUsers(w.db, q);
      forall u | u !in w.logins ensures Share(Stored(plan), u) == 0 {
        assert Share(was, u) == 0;
        assert u !in w.db.users;
      }
    }
  }

  /** An accepted PUT that ends with a completed, foreign-completed task found both parties. */
  lemma PlanUsers(db: DB, q: Request)
    requires PutAccepted(db, q) && q.id in db.tasks
    ensures q.user in db.users
    ensures q.user != db.tasks[q.id].group.owner && q.sent.completed && !db.tasks[q.id].completed
            ==> db.tasks[q.id].group.owner in db.users
  {
    var was, plan := db.tasks[q.id], Prepare(db, q);
    if q.user != was.group.owner && q.sent.completed && !was.completed {
      assert plan.ops[1] == AddCoin(was.group.owner, Neg64(q.sent.bounty));
      if was.group.owner !in db.users {
        assert RunTo(db, plan.ops, 1) == RunOp(db, plan.ops[0]) by { assert RunTo(db, plan.ops, 0) == Some(db); }
        assert RunTo(db, plan.ops, 2).None?;
        RunFails(db, plan.ops, 2, |plan.ops|);
        assert false;
      }
    }
  }

  lemma PostAccount(w: World, user: string, id: ID, sent: Task, u: string)
    requires PostAccepted(w.db, user, id, sent)
    ensures var w' := Step(w, Post(user, id, sent));
            w'.db.users == w.db.users && Account(w', u) == Account(w, u) + Share(Posted(user, sent), u)
  {
    SharesPut(w.db.tasks, id, Posted(user, sent), u);
  }

  lemma OwesBounty(w: World, user: string, id: ID, sent: Task)
    requires PostLeaks(w.db, user, id, sent)
    ensures user in w.db.users && Share(Posted(user, sent), user) == -(sent.bounty as int)
  {
    assert user in AllUsers(sent, user);
  }

  lemma PostMisses(w: World, w': World, user: string, id: ID, sent: Task)
    requires Escrow(w) && PostLeaks(w.db, user, id, sent) && w' == Step(w, Post(user, id, sent))
    ensures user in w'.db.users && w'.db.users[user] != Wrap64(Account(w', user))
  {
    OwesBounty(w, user, id, sent);
    PostAccount(w, user, id, sent, user);
    WrapDiffers(Account(w, user), sent.bounty);
  }

  lemma PostBreaks(w: World, user: string, id: ID, sent: Task)
    requires Escrow(w) && PostLeaks(w.db, user, id, sent)
    ensures !Escrow(Step(w, Post(user, id, sent)))
  {
    PostMisses(w, Step(w, Post(user, id, sent)), user, id, sent);
  }

  lemma PostKeeps(w: World, user: string, id: ID, sent: Task)
    requires Escrow(w) && Known(w) && !PostLeaks(w.db, user, id, sent)
    ensures Escrow(Step(w, Post(user, id, sent))) && Known(Step(w, Post(user, id, sent)))
  {
    if PostAccepted(w.db, user, id, sent) {
      var w' := Step(w, Post(user, id, sent));
      forall u ensures w'.db.users == w.db.users && Account(w', u) == Account(w, u) {
        PostAccount(w, user, id, sent, u);
      }
    }
  }

  lemma DeleteKeeps(w: World, user: string, id: ID)
    requires Escrow(w) && Known(w)
    ensures Escrow(Step(w, Delete(user, id))) && Known(Step(w, Delete(user, id)))
  {
    if id in w.db.tasks && w.db.tasks[id].group.owner == user {
      var w' := Step(w, Delete(user, id));
      forall u
        ensures Account(w', u) == Account(w, u)
        ensures Settled(w'.deleted, u) == Settled(w.deleted, u) + Share(w.db.tasks[id], u)
      {
        SharesDelete(w.db.tasks, id, u);
        Appended(w.grants, Grant(u, 0), w.deleted, w.db.tasks[id], u);
      }
    }
  }

  lemma GrantAccount(w: World, g: Grant, u: string)
    ensures Granted(w.grants + [g], u) == Granted(w.grants, u) + if g.user == u then g.coin else 0
    ensures Account(w.(grants := w.grants + [g]), u) == Account(w, u) + if g.user == u then g.coin else 0
  {
  }

  lemma PatchKeeps(w: World, name: string, coin: int64)
    requires Escrow(w) && Known(w)
    ensures Escrow(Step(w, Patch(name, coin))) && Known(Step(w, Patch(name, coin)))
  {
    if name in w.db.users {
      var w' := Step(w, Patch(name, coin));
      var ops := [CheckUsersExist({name}), AddCoin(name, coin)];
      assert RunTo(w.db, ops, 1) == Some(w.db) by { assert RunTo(w.db, ops, 0) == Some(w.db); }
      assert w'.db == w.db.(users := w.db.users[name := Wrap64(w.db.users[name] + coin)]);
      forall u ensures Account(w', u) == Account(w, u) + if u == name then coin else 0 {
        GrantAccount(w, Grant(name, coin), u);
      }
      WrapAdd(Account(w, name), coin);
      forall u ensures Granted(w'.grants, u) == Granted(w.grants, u) + if u == name then coin else 0 {
        GrantAccount(w, Grant(name, coin), u);
      }
    }
  }

  lemma CreateKeeps(w: World, name: string, coin: int64)
    requires Escrow(w) && Known(w)
    ensures Escrow(Step(w, Create(name, coin))) && Known(Step(w, Create(name, coin)))
  {
    if name !in w.db.users && name !in w.logins {
      var w' := Step(w, Create(name, coin));
      forall u ensures Account(w', u) == Account(w, u) + if u == name then coin else 0 {
        GrantAccount(w, Grant(name, coin), u);
      }
      forall u ensures Granted(w'.grants, u) == Granted(w.grants, u) + if u == name then coin else 0 {
        GrantAccount(w, Grant(name, coin), u);
      }
      SumOfZeros(SharesIn(w.db.tasks, name));
      WrapFits(coin);
    }
  }

  /** One handler, exactly: from a world in escrow, a request keeps it there if and only if it
      does not leak. */
  lemma StepExact(w: World, e: Event)
    requires Escrow(w) && Known(w)
    ensures Escrow(Step(w, e)) <==> !Leaks(w, e)
    ensures !Leaks(w, e) ==> Known(Step(w, e))
  {
    match e
    case Create(name, coin) => CreateKeeps(w, name, coin);
    case Remove(name) =>
      assert forall u :: Account(Step(w, e), u) == Account(w, u);
    case Patch(name, coin) => PatchKeeps(w, name, coin);
    case Post(user, id, sent) =>
      if PostLeaks(w.db, user, id, sent) {
        PostBreaks(w, user, id, sent);
      } else {
        PostKeeps(w, user, id, sent);
      }
    case PutTask(q) =>
      if PutLeaks(w.db, q) {
        PutBreaksEscrow(w, q);
      } else {
        PutKeepsEscrow(w, q);
        PutKeepsKnown(w, q);
      }
    case Delete(user, id) => DeleteKeeps(w, user, id);
  }

  lemma EmptyInEscrow()
    ensures Escrow(EMPTY) && Known(EMPTY)
  {
  }

  /** No request of the run leaks. */
  ghost predicate Tight(events: seq<Event>, n: nat)
    requires n <= |events|
  {
    n > 0 ==> Tight(events, n - 1) && !Leaks(Run(events, n - 1), events[n - 1])
  }

  /** The escrow invariant over every run in which no request leaks. */
  lemma {:induction false} EscrowHolds(events: seq<Event>, n: nat)
    requires n <= |events| && Tight(events, n)
    ensures Escrow(Run(events, n)) && Known(Run(events, n))
  {
    if n == 0 {
      EmptyInEscrow();
    } else {
      EscrowHolds(events, n - 1);
      StepExact(Run(events, n - 1), events[n - 1]);
    }
  }

  /** What a caller can check: tasks are posted open, PUTs keep the owner, and only the owner
      or the completer un-completes. */
  predicate Polite(w: World, e: Event) {
    match e
    case Post(_, _, sent) => !sent.completed
    case PutTask(q) =>
      q.id in w.db.tasks ==>
        var was := w.db.tasks[q.id];
        && q.sent.group.owner == was.group.owner
        && (was.completed && !q.sent.completed ==> q.user == was.group.owner || q.user == was.completedBy)
    case _ => true
  }

  ghost predicate AllPolite(events: seq<Event>, n: nat)
    requires n <= |events|
  {
    n > 0 ==> AllPolite(events, n - 1) && Polite(Run(events, n - 1), events[n - 1])
  }

  /** Over every polite run each balance is its account. */
  lemma {:induction false} PoliteRunsHold(events: seq<Event>, n: nat)
    requires n <= |events| && AllPolite(events, n)
    ensures Tight(events, n) && Escrow(Run(events, n))
  {
    if n > 0 {
      PoliteRunsHold(events, n - 1);
    }
    EscrowHolds(events, n);
  }

  /* ---------- a run that leaks ---------- */

  const ALL := Members(map["a" := true, "b" := true, "c" := true])
  const FRESH := Task(Group("a", ALL, ALL), "job", 5, false, "", None, None, [])
  const BY_B := FRESH.(completed := true, completedBy := "b", completedAt := Some(7))

  /** Owner a posts a job for 5, writer b completes it, writer c un-completes it. */
  const LEAK: seq<Event> := [
    Create("a", 0), Create("b", 0), Create("c", 0),
    Post("a", 1, FRESH),
    PutTask(Request("b", 1, FRESH.(completed := true), 7)),
    PutTask(Request("c", 1, BY_B.(completed := false), 8))]

  const BEFORE := DB(map["a" := 0, "b" := 0, "c" := 0], map[1 := FRESH])
  const DURING := DB(map["a" := -5, "b" := 5, "c" := 0], map[1 := BY_B])
  const AFTER := DB(DURING.users, map[1 := BY_B.(completed := false)])

  const THREE := DB(map["a" := 0, "b" := 0, "c" := 0], map[])

  lemma LeakStart()
    ensures Run(LEAK, 3).db == THREE && Tight(LEAK, 3)
  {
    assert Run(LEAK, 0) == EMPTY && Tight(LEAK, 0);
    assert Run(LEAK, 1).db == DB(map["a" := 0], map[]) && Run(LEAK, 1).logins == {"a"} && Tight(LEAK, 1);
    assert Run(LEAK, 2).db == DB(map["a" := 0, "b" := 0], map[]) && Run(LEAK, 2).logins == {"a", "b"};
    assert Tight(LEAK, 2);
  }

  lemma LeakSetup()
    ensures Run(LEAK, 4).db == BEFORE && Tight(LEAK, 4)
  {
    LeakStart();
    assert ALL.m["a" := true] == ALL.m;
    assert Posted("a", FRESH) == FRESH;
    assert PostAccepted(Run(LEAK, 3).db, "a", 1, FRESH);
  }

  lemma NormalizeAll(t: Task, u: string)
    requires t.group == FRESH.group && u in ALL.m
    ensures Normalize(t, u) == t && AllUsers(t, u) == {"a", "b", "c"}
  {
    assert ALL.m[u := true] == ALL.m;
    assert ALL.m + (map w | w in ALL.m :: true) == ALL.m;
    assert ALL.m.Keys == {"a", "b", "c"};
  }

  function Add(users: map<string, int64>, u: string, coin: int): map<string, int64> {
    if u in users then users[u := Wrap64(users[u] as int + coin)] else users
  }

  /** What completing the job does, for a writer u. */
  lemma CompletionOps(db: DB, u: string, done: Task, ops: seq<Op>)
    requires ops == [CheckUsersExist({"a", "b", "c"}), AddCoin("a", Neg64(5)), AddCoin(u, 5), StoreTask(1, done)]
    requires db.users.Keys == {"a", "b", "c"} && u in db.users
    ensures RunTo(db, ops, 4) == Some(DB(Add(Add(db.users, "a", -5), u, 5), db.tasks[1 := done]))
  {
    assert Neg64(5) == -5;
    assert RunTo(db, ops, 1) == Some(db) by { assert RunTo(db, ops, 0) == Some(db); }
    var d := db.(users := Add(db.users, "a", -5));
    assert RunTo(db, ops, 2) == Some(d);
    assert RunTo(db, ops, 3) == Some(d.(users := Add(d.users, u, 5)));
  }

  function Completing(u: string, now: Time): Request {
    Request(u, 1, FRESH.(completed := true), now)
  }

  function DoneBy(u: string, now: Time): Task {
    FRESH.(completed := true, completedBy := u, completedAt := Some(now))
  }

  /** The plan of b or c to complete the job, made while it is open. */
  lemma CompletionPlan(u: string, now: Time) returns (ops: seq<Op>)
    requires u in {"b", "c"}
    ensures ops == [CheckUsersExist({"a", "b", "c"}), AddCoin("a", Neg64(5)), AddCoin(u, 5),
                    StoreTask(1, DoneBy(u, now))]
    ensures Prepare(BEFORE, Completing(u, now)) == Commit(ops)
  {
    NormalizeAll(FRESH.(completed := true), u);
    ops := [CheckUsersExist({"a", "b", "c"}), AddCoin("a", Neg64(5)), AddCoin(u, 5), StoreTask(1, DoneBy(u, now))];
  }

  /** Planned while the job is open, it lands on any state of the three accounts. */
  lemma CompletionLands(db: DB, u: string, now: Time)
    requires u in {"b", "c"} && db.users.Keys == {"a", "b", "c"}
    ensures Lands(db, BEFORE, Completing(u, now))
    ensures Finish(db, Prepare(BEFORE, Completing(u, now)))
         == DB(Add(Add(db.users, "a", -5), u, 5), db.tasks[1 := DoneBy(u, now)])
  {
    var ops := CompletionPlan(u, now);
    CompletionOps(db, u, DoneBy(u, now), ops);
  }

  lemma Sums()
    ensures Add(Add(BEFORE.users, "a", -5), "b", 5) == DURING.users
    ensures Add(Add(DURING.users, "a", -5), "c", 5) == PAID_TWICE.users
  {
    assert Wrap64(-5) == -5 && Wrap64(5) == 5 && Wrap64(-10) == -10;
  }

  lemma BCompletes()
    ensures Put(BEFORE, LEAK[4].q) == DURING && !PutLeaks(BEFORE, LEAK[4].q)
  {
    CompletionLands(BEFORE, "b", 7);
    Sums();
    assert BEFORE.tasks[1 := BY_B] == DURING.tasks;
  }

  lemma CUncompletes()
    ensures PutAccepted(DURING, LEAK[5].q) && Put(DURING, LEAK[5].q) == AFTER && PutLeaks(DURING, LEAK[5].q)
  {
    var q := LEAK[5].q;
    NormalizeAll(q.sent, "c");
    var ops := [CheckUsersExist({"a", "b", "c"}), StoreTask(1, q.sent)];
    assert Prepare(DURING, q) == Commit(ops);
    assert RunTo(DURING, ops, 1) == Some(DURING) by { assert RunTo(DURING, ops, 0) == Some(DURING); }
    assert DURING.tasks[1 := q.sent] == AFTER.tasks;
  }

  lemma DuringHolds()
    ensures Run(LEAK, 5) == Run(LEAK, 4).(db := DURING)
    ensures Escrow(Run(LEAK, 5)) && Known(Run(LEAK, 5))
  {
    LeakSetup();
    BCompletes();
    assert Run(LEAK, 5) == Run(LEAK, 4).(db := DURING) && Tight(LEAK, 5);
    EscrowHolds(LEAK, 5);
  }

  /** The last PUT of the run breaks the invariant: the job is open again, and b keeps the 5. */
  lemma LeakHappens()
    ensures Escrow(Run(LEAK, 5)) && !Escrow(Run(LEAK, 6))
    ensures Run(LEAK, 6).db == AFTER
  {
    DuringHolds();
    CUncompletes();
    StepExact(Run(LEAK, 5), LEAK[5]);
  }

  /* ---------- a run with a stale commit ---------- */

  const PAID_TWICE := DB(map["a" := -10, "b" := 5, "c" := 5], map[1 := DoneBy("c", 8)])

  lemma CLandsToo()
    ensures Lands(DURING, BEFORE, Completing("c", 8))
    ensures Finish(DURING, Prepare(BEFORE, Completing("c", 8))) == PAID_TWICE
  {
    CompletionLands(DURING, "c", 8);
    Sums();
    assert DURING.tasks[1 := DoneBy("c", 8)] == PAID_TWICE.tasks;
  }

  /** Two requests that both view everything before either commits. */
  function BothFirst(p: Request, q: Request): seq<RaceStep> {
    [CheckUsers(p), CheckUsers(q), LoadTask(0), LoadTask(1), CommitPlan(0), CommitPlan(1)]
  }

  lemma BothCommit(db: DB, p: Request, q: Request)
    ensures var w, db' := Racing(db, []), Finish(db, Prepare(db, p));
            && RaceTo(w, BothFirst(p, q), 5).db == db'
            && RaceTo(w, BothFirst(p, q), 6).db == Finish(db', Prepare(db, q))
  {
    var w, steps, pp, pq := Racing(db, []), BothFirst(p, q), Planned(Prepare(db, p)), Planned(Prepare(db, q));
    assert RaceTo(w, steps, 0) == w;
    assert RaceTo(w, steps, 1) == Racing(db, [Checked(p, db.users)]);
    assert RaceTo(w, steps, 2) == Racing(db, [Checked(p, db.users), Checked(q, db.users)]);
    assert RaceTo(w, steps, 3) == Racing(db, [pp, Checked(q, db.users)]);
    assert RaceTo(w, steps, 4) == Racing(db, [pp, pq]);
    assert RaceTo(w, steps, 5) == Racing(Finish(db, Prepare(db, p)), [pp, pq]);
  }

  lemma TwiceBreaks(w: World)
    requires Escrow(w) && w.db == DURING
    ensures !Escrow(w.(db := PAID_TWICE))
  {
    CLandsToo();
    StaleExact(w, BEFORE, Completing("c", 8));
    assert ShareAt(DURING.tasks, 1, "b") == 5 && Basis(BEFORE, Completing("c", 8), "b") == 0;
    NotCong(5, 0, 5);
  }

  /** Writers b and c both load the job open, and both complete it.  The second commit breaks the
      invariant, and changes the completion data under a task that stays completed: a pays twice,
      and b keeps the 5 for a job recorded as done by c. */
  lemma StaleCommitHappens()
    ensures var w, steps := Racing(BEFORE, []), BothFirst(Completing("b", 7), Completing("c", 8));
            RaceTo(w, steps, 5).db == DURING && RaceTo(w, steps, 6).db == PAID_TWICE
    ensures Escrow(Run(LEAK, 4).(db := DURING)) && !Escrow(Run(LEAK, 4).(db := PAID_TWICE))
    ensures BY_B.completed && DoneBy("c", 8).completed && !SameOutcome(BY_B, DoneBy("c", 8))
  {
    BothCommit(BEFORE, Completing("b", 7), Completing("c", 8));
    BCompletes();
    CLandsToo();
    DuringHolds();
    TwiceBreaks(Run(LEAK, 5));
  }
}
