/** The task bounty ledger: PUT /tasks/:id (rest/task.go) and the transactions it runs
    (users/users.go, store/store.go). */
module Ledger {
  import opened Options
  import opened Coin

  type ID = nat
  type Time = int

  /** A map[string]bool, which may be nil: reading a nil map yields false, writing to it panics. */
  datatype Members = NilMap | Members(m: map<string, bool>) {
    predicate Has(u: string) {
      Members? && u in m && m[u]
    }
  }

  datatype Group = Group(owner: string, readers: Members, writers: Members)

  datatype Task = Task(
    group: Group,
    name: string,
    bounty: int64,
    completed: bool,
    completedBy: string,
    completedAt: Option<Time>,
    due: Option<Time>,
    notes: seq<string>)

  datatype DB = DB(users: map<string, int64>, tasks: map<ID, Task>)

  /* ---------- transactions ---------- */

  datatype Op =
    | CheckUsersExist(names: set<string>)
    | AddCoin(user: string, coin: int64)
    | StoreTask(id: ID, task: Task)

  function RunOp(db: DB, op: Op): Option<DB> {
    match op
    case CheckUsersExist(names) => if names <= db.users.Keys then Some(db) else None
    case AddCoin(u, coin) =>
      if u in db.users then Some(db.(users := db.users[u := Wrap64(db.users[u] + coin)])) else None
    case StoreTask(id, task) => Some(db.(tasks := db.tasks[id := task]))
  }

  /** store.Wrap: the first n operations, stopping at the first error. */
  function RunTo(db: DB, ops: seq<Op>, n: nat): Option<DB>
    requires n <= |ops|
  {
    if n == 0 then Some(db)
    else match RunTo(db, ops, n - 1) case None => None case Some(d) => RunOp(d, ops[n - 1])
  }

  predicate Succeeds(db: DB, ops: seq<Op>) {
    RunTo(db, ops, |ops|).Some?
  }

  /** db.Update(store.Wrap(ops...)): all of it or none of it. */
  function Update(db: DB, ops: seq<Op>): DB {
    match RunTo(db, ops, |ops|) case None => db case Some(d) => d
  }

  /* ---------- the decision table ---------- */

  datatype Plan = Refuse | Panic | Commit(ops: seq<Op>)

  /** The sent task with the sender, and every writer, among the readers (task.go:343-357). */
  function Normalize(sent: Task, user: string): Task
    requires sent.group.readers.Members? && sent.group.writers.Members?
  {
    var ws := sent.group.writers.m[user := true];
    var rs := sent.group.readers.m[user := true] + map w | w in ws :: true;
    sent.(group := sent.group.(readers := Members(rs), writers := Members(ws)))
  }

  /** allUsers (task.go:346-357), as the set it is. */
  function AllUsers(sent: Task, user: string): set<string>
    requires sent.group.readers.Members? && sent.group.writers.Members?
  {
    {user} + sent.group.readers.m.Keys + sent.group.writers.m.Keys
  }

  /** The switch of Put (task.go:385-465) on the loaded task and the normalized one. */
  function Decide(user: string, id: ID, was: Task, sent: Task, all: set<string>, now: Time): Plan {
    var isOwner := was.group.owner == user;
    var isWriter := was.group.writers.Has(user);
    var flip := was.completed != sent.completed;
    if was.completedBy != sent.completedBy && sent.completed then Refuse
    else if was.completedAt != sent.completedAt && sent.completed then Refuse
    else if isOwner && was.bounty != sent.bounty && was.completed then Refuse
    else if isOwner && was.due != sent.due && was.completed then Refuse
    else if isOwner && flip && !sent.completed then
      Commit([StoreTask(id, sent), AddCoin(was.group.owner, was.bounty),
              AddCoin(was.completedBy, Neg64(was.bounty)), CheckUsersExist(all)])
    else if isOwner then
      var stored := if sent.completed && !was.completed
                    then sent.(completedBy := sent.group.owner, completedAt := Some(now)) else sent;
      Commit([StoreTask(id, stored), CheckUsersExist(all)])
    else if was.bounty != sent.bounty || was.due != sent.due || was.group != sent.group then Refuse
    else if isWriter && flip && sent.completed then
      Commit([CheckUsersExist(all), AddCoin(was.group.owner, Neg64(sent.bounty)),
              AddCoin(user, sent.bounty),
              StoreTask(id, sent.(completedBy := user, completedAt := Some(now)))])
    else if isWriter && flip && !sent.completed && was.completedBy == user then
      Commit([CheckUsersExist(all), AddCoin(was.group.owner, sent.bounty),
              AddCoin(user, Neg64(sent.bounty)),
              StoreTask(id, sent.(completedBy := "", completedAt := None))])
    else if isWriter then Commit([CheckUsersExist(all), StoreTask(id, sent)])
    else Refuse
  }

  /** A PUT request. */
  datatype Request = Request(user: string, id: ID, sent: Task, now: Time)

  /** All of Put before its Update, against the database the views see (task.go:316-465). */
  function Prepare(db: DB, q: Request): Plan {
    if q.sent.group.owner != q.user && !q.sent.group.writers.Has(q.user) then Refuse
    else if q.sent.group.readers.NilMap? || q.sent.group.writers.NilMap? then Panic
    else
      var all := AllUsers(q.sent, q.user);
      if !(all <= db.users.Keys) then Refuse
      else if q.id !in db.tasks then Refuse
      else Decide(q.user, q.id, db.tasks[q.id], Normalize(q.sent, q.user), all, q.now)
  }

  function Finish(db: DB, plan: Plan): DB {
    if plan.Commit? then Update(db, plan.ops) else db
  }

  /** Put with nothing else in between. */
  function Put(db: DB, q: Request): DB {
    Finish(db, Prepare(db, q))
  }

  /* ---------- as the handler does it ---------- */

  class API {
    var users: map<string, int64>
    var tasks: map<ID, Task>

    function Db(): DB
      reads this
    {
      DB(users, tasks)
    }

    constructor (db: DB)
      ensures Db() == db
    {
      users, tasks := db.users, db.tasks;
    }

    /** CheckUsersExist (users.go:45-58): stops at the first missing name. */
    method CheckExist(names: set<string>) returns (ok: bool)
      ensures ok <==> names <= users.Keys
    {
      var left := names;
      while left != {}
        invariant left <= names && names - left <= users.Keys
        decreases left
      {
        var name :| name in left;
        if name !in users {
          return false;
        }
        left := left - {name};
      }
      ok := true;
    }

    /** db.Update of a store.Wrap: runs each operation on the live buckets, and puts the old
        ones back on the first error. */
    method RunUpdate(ops: seq<Op>) returns (ok: bool)
      modifies this
      ensures Db() == Update(old(Db()), ops)
      ensures ok <==> Succeeds(old(Db()), ops)
    {
      var users0, tasks0 := users, tasks;
      for i := 0 to |ops|
        invariant RunTo(old(Db()), ops, i) == Some(Db())
      {
        var fine := true;
        match ops[i] {
          case CheckUsersExist(names) => fine := CheckExist(names);
          case AddCoin(u, coin) =>
            if u in users {
              users := users[u := Wrap64(users[u] + coin)];
            } else {
              fine := false;
            }
          case StoreTask(id, task) => tasks := tasks[id := task];
        }
        if !fine {
          RunFails(old(Db()), ops, i + 1, |ops|);
          users, tasks := users0, tasks0;
          return false;
        }
      }
      ok := true;
    }

    /** PUT /tasks/:id. */
    method PutTask(q: Request) returns (ok: bool)
      modifies this
      ensures Db() == Put(old(Db()), q)
      ensures ok <==> Acceptable(old(Db()), q)
    {
      AcceptedIff(Db(), q);
      var sent := q.sent;
      if sent.group.owner != q.user && !sent.group.writers.Has(q.user) {
        return false;
      }
      if sent.group.readers.NilMap? || sent.group.writers.NilMap? {
        return false;  // assignment to a nil map
      }
      var rs, ws := sent.group.readers.m[q.user := true], sent.group.writers.m[q.user := true];
      var all, rs' := FillUsers(q.user, rs, ws);
      sent := sent.(group := sent.group.(readers := Members(rs'), writers := Members(ws)));
      assert sent == Normalize(q.sent, q.user) && all == AllUsers(q.sent, q.user);
      var exist := CheckExist(all);
      if !exist || q.id !in tasks {
        return false;
      }
      var plan := Decide(q.user, q.id, tasks[q.id], sent, all, q.now);
      if !plan.Commit? {
        return false;
      }
      ok := RunUpdate(plan.ops);
    }

    /** The two range loops of task.go:349-357. */
    method FillUsers(user: string, readers: map<string, bool>, writers: map<string, bool>)
      returns (all: set<string>, rs: map<string, bool>)
      ensures all == {user} + readers.Keys + writers.Keys
      ensures rs == readers + map w | w in writers :: true
    {
      all := {user} + readers.Keys;
      rs := readers;
      var left := writers.Keys;
      while left != {}
        invariant left <= writers.Keys
        invariant all == {user} + readers.Keys + (writers.Keys - left)
        invariant rs == readers + map w | w in writers.Keys - left :: true
        decreases left
      {
        var w :| w in left;
        left := left - {w};
        all := all + {w};
        rs := rs[w := true];
      }
      assert writers.Keys - left == writers.Keys;
    }
  }

  lemma {:induction false} RunFails(db: DB, ops: seq<Op>, i: nat, n: nat)
    requires i <= n <= |ops| && RunTo(db, ops, i).None?
    ensures RunTo(db, ops, n).None?
  {
    if i < n {
      RunFails(db, ops, i, n - 1);
    }
  }

  /* ---------- conservation ---------- */

  function CoinOf(op: Op): int {
    if op.AddCoin? then op.coin else 0
  }

  /** The coin the first n operations add. */
  function CoinTo(ops: seq<Op>, n: nat): int
    requires n <= |ops|
  {
    if n == 0 then 0 else CoinTo(ops, n - 1) + CoinOf(ops[n - 1])
  }

  /** All coin in the bank, modulo 2^64. */
  ghost function Bank(db: DB): int64 {
    Wrap64(Sum(db.users))
  }

  lemma OpMovesCoin(db: DB, op: Op)
    requires RunOp(db, op).Some?
    ensures var d := RunOp(db, op).value;
            Bank(d) == Wrap64(Sum(db.users) + CoinOf(op)) && d.users.Keys == db.users.Keys
  {
    if op.AddCoin? {
      var u, x := op.user, db.users[op.user] + op.coin;
      SumUpdate(db.users, u, Wrap64(x));
      var k := (x + TWO63) / TWO64;
      assert Wrap64(x) == x - k * TWO64;
      WrapShift(Sum(db.users) + op.coin, k);
    }
  }

  lemma {:induction false} RunMovesCoin(db: DB, ops: seq<Op>, n: nat)
    requires n <= |ops| && RunTo(db, ops, n).Some?
    ensures var d := RunTo(db, ops, n).value;
            Bank(d) == Wrap64(Sum(db.users) + CoinTo(ops, n)) && d.users.Keys == db.users.Keys
  {
    if n > 0 {
      RunMovesCoin(db, ops, n - 1);
      var d := RunTo(db, ops, n - 1).value;
      OpMovesCoin(d, ops[n - 1]);
      WrapAdd(Sum(d.users), CoinOf(ops[n - 1]));
      WrapAdd(Sum(db.users) + CoinTo(ops, n - 1), CoinOf(ops[n - 1]));
    }
  }

  /** A negated amount cancels, also where negation overflows. */
  lemma Cancels(c: int64)
    ensures var x: int := c; Neg64(c) == -x || Neg64(c) == -x - TWO64
  {
  }

  lemma Coins2(ops: seq<Op>)
    requires |ops| == 2
    ensures CoinTo(ops, 2) == CoinOf(ops[0]) + CoinOf(ops[1])
  {
    assert CoinTo(ops, 1) == CoinOf(ops[0]);
  }

  lemma Coins4(ops: seq<Op>)
    requires |ops| == 4
    ensures CoinTo(ops, 4) == CoinOf(ops[0]) + CoinOf(ops[1]) + CoinOf(ops[2]) + CoinOf(ops[3])
  {
    assert CoinTo(ops, 1) == CoinOf(ops[0]);
    assert CoinTo(ops, 2) == CoinTo(ops, 1) + CoinOf(ops[1]);
    assert CoinTo(ops, 3) == CoinTo(ops, 2) + CoinOf(ops[2]);
  }

  /** Every plan of Put adds nothing in all. */
  lemma PlanBalances(user: string, id: ID, was: Task, sent: Task, all: set<string>, now: Time)
    ensures var plan := Decide(user, id, was, sent, all, now);
            plan.Commit? ==> CoinTo(plan.ops, |plan.ops|) % TWO64 == 0
  {
    var plan := Decide(user, id, was, sent, all, now);
    Cancels(was.bounty);
    Cancels(sent.bounty);
    if plan.Commit? {
      if |plan.ops| == 2 { Coins2(plan.ops); } else { Coins4(plan.ops); }
    }
  }

  lemma PlanConserves(db: DB, seen: DB, q: Request)
    ensures Bank(Finish(db, Prepare(seen, q))) == Bank(db)
    ensures Finish(db, Prepare(seen, q)).users.Keys == db.users.Keys
  {
    var plan := Prepare(seen, q);
    if plan.Commit? && Succeeds(db, plan.ops) {
      PlanBalances(q.user, q.id, seen.tasks[q.id], Normalize(q.sent, q.user), AllUsers(q.sent, q.user), q.now);
      RunMovesCoin(db, plan.ops, |plan.ops|);
      var c := CoinTo(plan.ops, |plan.ops|);
      WrapShift(Sum(db.users) + c, c / TWO64);
      assert c - (c / TWO64) * TWO64 == 0;
    }
  }

  /** A PUT handler in flight, after its first view or after its second: each of the two sees
      the database of its own moment, and the commit may come much later. */
  datatype Flight = Checked(q: Request, users: map<string, int64>) | Planned(plan: Plan)

  datatype Racing = Racing(db: DB, flights: seq<Flight>)
  datatype RaceStep =
    | CheckUsers(q: Request)    // View(CheckUsersExist)
    | LoadTask(i: nat)          // View(Load), and the decision
    | CommitPlan(i: nat)        // Update

  function Race(w: Racing, step: RaceStep): Racing {
    match step
    case CheckUsers(q) => w.(flights := w.flights + [Checked(q, w.db.users)])
    case LoadTask(i) =>
      if i < |w.flights| && w.flights[i].Checked?
      then w.(flights := w.flights[i := Planned(Prepare(DB(w.flights[i].users, w.db.tasks), w.flights[i].q))])
      else w
    case CommitPlan(i) =>
      if i < |w.flights| && w.flights[i].Planned? then w.(db := Finish(w.db, w.flights[i].plan)) else w
  }

  function RaceTo(w: Racing, steps: seq<RaceStep>, n: nat): Racing
    requires n <= |steps|
  {
    if n == 0 then w else Race(RaceTo(w, steps, n - 1), steps[n - 1])
  }

  /** The flight has seen the users at one step of the race, and then the tasks at a later one. */
  ghost predicate Made(db: DB, steps: seq<RaceStep>, n: nat, f: Flight)
    requires n <= |steps|
  {
    match f
    case Checked(q, users) =>
      exists i :: 0 <= i < n && steps[i] == CheckUsers(q) && users == RaceTo(Racing(db, []), steps, i).db.users
    case Planned(plan) =>
      exists i, j :: 0 <= i < j < n && steps[i].CheckUsers? && steps[j].LoadTask? &&
        var w, w' := RaceTo(Racing(db, []), steps, i), RaceTo(Racing(db, []), steps, j);
        plan == Prepare(DB(w.db.users, w'.db.tasks), steps[i].q)
  }

  lemma MadeStays(db: DB, steps: seq<RaceStep>, n: nat, f: Flight)
    requires n < |steps| && Made(db, steps, n, f)
    ensures Made(db, steps, n + 1, f)
  {
    if f.Checked? {
      var i :| 0 <= i < n && steps[i] == CheckUsers(f.q) && f.users == RaceTo(Racing(db, []), steps, i).db.users;
    }
  }

  /** So has every flight of a race. */
  lemma {:induction false} RacePlans(db: DB, steps: seq<RaceStep>, n: nat, k: nat)
    requires n <= |steps| && k < |RaceTo(Racing(db, []), steps, n).flights|
    ensures Made(db, steps, n, RaceTo(Racing(db, []), steps, n).flights[k])
  {
    if n > 0 {
      var w, w' := RaceTo(Racing(db, []), steps, n - 1), RaceTo(Racing(db, []), steps, n);
      var step := steps[n - 1];
      if k < |w.flights| {
        RacePlans(db, steps, n - 1, k);
        MadeStays(db, steps, n - 1, w.flights[k]);
        if step.LoadTask? && step.i == k && w.flights[k].Checked? {
          var q, users := w.flights[k].q, w.flights[k].users;
          var i :| 0 <= i < n - 1 && steps[i] == CheckUsers(q) && users == RaceTo(Racing(db, []), steps, i).db.users;
          assert w'.flights[k] == Planned(Prepare(DB(users, w.db.tasks), steps[i].q));
        }
      } else {
        assert steps[n - 1] == CheckUsers(step.q) && w'.flights[k] == Checked(step.q, w.db.users);
      }
    }
  }

  /** Coin conservation: under every interleaving of the three transactions of each PUT, also ones
      acting on a task read long ago, the total coin modulo 2^64 never changes, and no user comes
      or goes. */
  lemma {:induction false} CoinConserved(db: DB, steps: seq<RaceStep>, n: nat)
    requires n <= |steps|
    ensures var w := RaceTo(Racing(db, []), steps, n);
            Bank(w.db) == Bank(db) && w.db.users.Keys == db.users.Keys
  {
    if n > 0 {
      CoinConserved(db, steps, n - 1);
      var w, step := RaceTo(Racing(db, []), steps, n - 1), steps[n - 1];
      if step.CommitPlan? && step.i < |w.flights| && w.flights[step.i].Planned? {
        RacePlans(db, steps, n - 1, step.i);
        var seen, q :| w.flights[step.i].plan == Prepare(seen, q);
        PlanConserves(w.db, seen, q);
      }
    }
  }

  /* ---------- frozen fields ---------- */

  /** A plan that commits stores a task, first or last. */
  predicate Stores(plan: Plan) {
    plan.Commit? && |plan.ops| in {2, 4} && (plan.ops[0].StoreTask? || plan.ops[|plan.ops| - 1].StoreTask?)
  }

  function Stored(plan: Plan): Task
    requires Stores(plan)
  {
    if plan.ops[0].StoreTask? then plan.ops[0].task else plan.ops[|plan.ops| - 1].task
  }

  lemma DecideShape(user: string, id: ID, was: Task, sent: Task, all: set<string>, now: Time)
    ensures var plan := Decide(user, id, was, sent, all, now);
            plan.Commit? ==>
              && Stores(plan) && (plan.ops[0].StoreTask? != plan.ops[|plan.ops| - 1].StoreTask?)
              && (plan.ops[0].StoreTask? ==> plan.ops[0].id == id)
              && (plan.ops[|plan.ops| - 1].StoreTask? ==> plan.ops[|plan.ops| - 1].id == id)
              && (forall i :: 0 < i < |plan.ops| - 1 ==> !plan.ops[i].StoreTask?)
  {
  }

  lemma {:induction false} StoredFirst(db: DB, ops: seq<Op>, n: nat)
    requires 0 < n <= |ops| && ops[0].StoreTask? && RunTo(db, ops, n).Some?
    requires forall i :: 0 < i < n ==> !ops[i].StoreTask?
    ensures RunTo(db, ops, n).value.tasks == db.tasks[ops[0].id := ops[0].task]
  {
    if n > 1 {
      StoredFirst(db, ops, n - 1);
    } else {
      assert RunTo(db, ops, 0) == Some(db);
    }
  }

  lemma {:induction false} StoredNone(db: DB, ops: seq<Op>, n: nat)
    requires n <= |ops| && RunTo(db, ops, n).Some?
    requires forall i :: 0 <= i < n ==> !ops[i].StoreTask?
    ensures RunTo(db, ops, n).value.tasks == db.tasks
  {
    if n > 0 {
      StoredNone(db, ops, n - 1);
    }
  }

  /** What a commit leaves in the task bucket, whatever was seen when it was planned: everything as
      before, or the one task replaced. */
  lemma FinishTasks(db: DB, seen: DB, q: Request)
    ensures var plan := Prepare(seen, q);
            if plan.Commit? && Succeeds(db, plan.ops)
            then Stores(plan) && q.id in seen.tasks
                 && Finish(db, plan).tasks == db.tasks[q.id := Stored(plan)]
            else Finish(db, plan) == db
  {
    var plan := Prepare(seen, q);
    if plan.Commit? && Succeeds(db, plan.ops) {
      var n := |plan.ops|;
      DecideShape(q.user, q.id, seen.tasks[q.id], Normalize(q.sent, q.user), AllUsers(q.sent, q.user), q.now);
      if plan.ops[0].StoreTask? {
        StoredFirst(db, plan.ops, n);
      } else {
        StoredNone(db, plan.ops, n - 1);
      }
    }
  }

  /** The same for a PUT with nothing in between. */
  lemma PutTasks(db: DB, q: Request)
    ensures var plan := Prepare(db, q);
            if plan.Commit? && Succeeds(db, plan.ops)
            then Stores(plan) && q.id in db.tasks
                 && Put(db, q).tasks == db.tasks[q.id := Stored(plan)]
            else Put(db, q) == db
  {
    FinishTasks(db, db, q);
  }

  predicate SameOutcome(a: Task, b: Task) {
    a.completedBy == b.completedBy && a.completedAt == b.completedAt && a.bounty == b.bounty && a.due == b.due
  }

  /** A completed task that stays completed keeps its completer, time, bounty and due date;
      and a PUT by anyone but the owner keeps owner, readers, writers, bounty and due date. */
  lemma PutFreezes(db: DB, q: Request, id: ID)
    requires id in db.tasks
    ensures id in Put(db, q).tasks
    ensures var t, t' := db.tasks[id], Put(db, q).tasks[id];
            && (t.completed && t'.completed ==> SameOutcome(t, t'))
            && (q.user != t.group.owner ==> t'.group == t.group && t'.bounty == t.bounty && t'.due == t.due)
  {
    PutTasks(db, q);
  }

  /** Exactly, for a commit planned on a task that has changed since: what a PUT must not touch is
      kept if and only if the task that was loaded had it right. */
  lemma StaleFreezes(db: DB, seen: DB, q: Request)
    requires Prepare(seen, q).Commit? && Succeeds(db, Prepare(seen, q).ops) && q.id in db.tasks
    ensures q.id in seen.tasks && q.id in Finish(db, Prepare(seen, q)).tasks
    ensures var was, t, t' := seen.tasks[q.id], db.tasks[q.id], Finish(db, Prepare(seen, q)).tasks[q.id];
            && (was.completed && t'.completed ==> (SameOutcome(t, t') <==> SameOutcome(t, was)))
            && (!was.completed && t'.completed ==>
                  (SameOutcome(t, t') <==>
                     && t.completedBy == (if q.user == was.group.owner then q.sent.group.owner else q.user)
                     && t.completedAt == Some(q.now) && t.bounty == q.sent.bounty && t.due == q.sent.due))
            && (q.user != was.group.owner ==>
                  (t'.group == t.group && t'.bounty == t.bounty && t'.due == t.due
                   <==> was.group == t.group && was.bounty == t.bounty && was.due == t.due))
            && q.sent.group.readers.Members? && q.sent.group.writers.Members?
            && (q.user == was.group.owner ==>
                  (t'.group == t.group && t'.bounty == t.bounty && t'.due == t.due
                   <==> Normalize(q.sent, q.user).group == t.group && q.sent.bounty == t.bounty && q.sent.due == t.due))
  {
    FinishTasks(db, seen, q);
  }

  /** Whatever was seen when the plan was made, it commits only if everybody it names exists then. */
  lemma CommittedMembersExist(db: DB, seen: DB, q: Request)
    requires Prepare(seen, q).Commit? && Succeeds(db, Prepare(seen, q).ops)
    ensures q.sent.group.readers.Members? && q.sent.group.writers.Members?
    ensures AllUsers(q.sent, q.user) <= Finish(db, Prepare(seen, q)).users.Keys
  {
    var ops, all := Prepare(seen, q).ops, AllUsers(q.sent, q.user);
    var i := if ops[0].CheckUsersExist? then 0 else |ops| - 1;
    assert ops[i] == CheckUsersExist(all);
    if RunTo(db, ops, i).None? || RunTo(db, ops, i + 1).None? {
      RunFails(db, ops, if RunTo(db, ops, i).None? then i else i + 1, |ops|);
      assert false;
    }
    RunMovesCoin(db, ops, i);
    PlanConserves(db, seen, q);
  }

  /** Who is recorded as the completer once a PUT has stored a task. */
  ghost predicate Attributed(t: Task, t': Task, q: Request) {
    && (t'.completed && t.completed ==> t'.completedBy == t.completedBy && t'.completedAt == t.completedAt)
    && (t'.completed && !t.completed ==>
          && t'.completedBy == (if q.user == t.group.owner then q.sent.group.owner else q.user)
          && t'.completedAt == Some(q.now))
    && (!t'.completed && t.completed && q.user != t.group.owner && q.user == t.completedBy ==>
          t'.completedBy == "" && t'.completedAt == None)
    && (!t'.completed && !(t.completed && q.user != t.group.owner && q.user == t.completedBy) ==>
          t'.completedBy == q.sent.completedBy && t'.completedAt == q.sent.completedAt)
  }

  /** A PUT is accepted only from the owner or a writer of the task as it stands; it then has
      the sent name, notes and completion, is credited to who completed it, and its members
      all exist, with every writer a reader. */
  lemma PutTakesEffect(db: DB, q: Request)
    requires Prepare(db, q).Commit? && Succeeds(db, Prepare(db, q).ops)
    ensures q.id in db.tasks && q.id in Put(db, q).tasks
    ensures var t, t' := db.tasks[q.id], Put(db, q).tasks[q.id];
            && (q.user == t.group.owner || t.group.writers.Has(q.user))
            && t'.name == q.sent.name && t'.notes == q.sent.notes && t'.completed == q.sent.completed
            && t'.bounty == q.sent.bounty && t'.due == q.sent.due && t'.group.owner == q.sent.group.owner
            && Attributed(t, t', q)
            && q.sent.group.readers.Members? && q.sent.group.writers.Members?
            && MembersSent(t'.group, q.sent.group, q.user)
            && t'.group.writers.m.Keys <= t'.group.readers.m.Keys <= Put(db, q).users.Keys
  {
    PutTasks(db, q);
    CommittedMembersExist(db, db, q);
    var stored := Stored(Prepare(db, q));
    NormalizeIff(stored.group, q.sent, q.user);
    assert stored.group.readers.m.Keys <= AllUsers(q.sent, q.user);
  }

  /* ---------- which PUTs are accepted ---------- */

  /** An operation finds the users it names. */
  predicate Finds(db: DB, op: Op) {
    match op
    case CheckUsersExist(names) => forall u :: u in names ==> u in db.users
    case AddCoin(u, _) => u in db.users
    case StoreTask(_, _) => true
  }

  /** A transaction commits exactly if each of its operations finds its users at the start. */
  lemma {:induction false} RunsIff(db: DB, ops: seq<Op>, n: nat)
    requires n <= |ops|
    ensures RunTo(db, ops, n).Some? <==> forall i :: 0 <= i < n ==> Finds(db, ops[i])
    ensures RunTo(db, ops, n).Some? ==> RunTo(db, ops, n).value.users.Keys == db.users.Keys
  {
    if n > 0 {
      RunsIff(db, ops, n - 1);
    }
  }

  /** The members of g are the sent ones, with the sender, and every writer a reader. */
  ghost predicate MembersSent(g: Group, sent: Group, user: string)
    requires sent.readers.Members? && sent.writers.Members?
  {
    && g.owner == sent.owner && g.readers.Members? && g.writers.Members?
    && (forall u :: u in g.writers.m <==> u == user || u in sent.writers.m)
    && (forall u :: u in g.writers.m ==> g.writers.m[u] == (u == user || sent.writers.m[u]))
    && (forall u :: u in g.readers.m <==> u == user || u in sent.readers.m || u in sent.writers.m)
    && (forall u :: u in g.readers.m ==> g.readers.m[u] == (u == user || u in sent.writers.m || sent.readers.m[u]))
  }

  lemma NormalizeIff(g: Group, sent: Task, user: string)
    requires sent.group.readers.Members? && sent.group.writers.Members?
    ensures Normalize(sent, user).group == g <==> MembersSent(g, sent.group, user)
  {
    var n := Normalize(sent, user).group;
    assert MembersSent(n, sent.group, user);
    if MembersSent(g, sent.group, user) {
      assert g.writers.m == n.writers.m && g.readers.m == n.readers.m;
    }
  }

  /** Everyone the request names exists. */
  ghost predicate AllKnown(db: DB, q: Request)
    requires q.sent.group.readers.Members? && q.sent.group.writers.Members?
  {
    forall u :: u == q.user || u in q.sent.group.readers.m || u in q.sent.group.writers.m ==> u in db.users
  }

  /** What the owner of t may send: no other bounty or due date while it is complete, and both
      parties there to settle an un-completion. */
  ghost predicate OwnerMay(db: DB, t: Task, q: Request) {
    && (t.completed ==> q.sent.bounty == t.bounty && q.sent.due == t.due)
    && (t.completed && !q.sent.completed ==> t.group.owner in db.users && t.completedBy in db.users)
  }

  /** What anyone else may send: a writer, leaving bounty, due date and members, with the owner
      there to settle a completion or the un-completion of the writer's own. */
  ghost predicate WriterMay(db: DB, t: Task, q: Request)
    requires q.sent.group.readers.Members? && q.sent.group.writers.Members?
  {
    && t.group.writers.Has(q.user)
    && q.sent.bounty == t.bounty && q.sent.due == t.due && MembersSent(t.group, q.sent.group, q.user)
    && (t.completed != q.sent.completed && (q.sent.completed || t.completedBy == q.user) ==> t.group.owner in db.users)
  }

  ghost predicate Acceptable(db: DB, q: Request) {
    && (q.sent.group.owner == q.user || q.sent.group.writers.Has(q.user))
    && q.sent.group.readers.Members? && q.sent.group.writers.Members? && AllKnown(db, q)
    && q.id in db.tasks
    && var t := db.tasks[q.id];
    && (q.sent.completed ==> q.sent.completedBy == t.completedBy && q.sent.completedAt == t.completedAt)
    && if q.user == t.group.owner then OwnerMay(db, t, q) else WriterMay(db, t, q)
  }

  lemma PlanFinds(db: DB, q: Request)
    requires Prepare(db, q).Commit?
    ensures q.id in db.tasks && q.sent.group.readers.Members? && q.sent.group.writers.Members?
    ensures var t, ops := db.tasks[q.id], Prepare(db, q).ops;
            var flip := t.completed != q.sent.completed;
            var settled := if q.user == t.group.owner then !q.sent.completed
                           else q.sent.completed || t.completedBy == q.user;
            (forall i :: 0 <= i < |ops| ==> Finds(db, ops[i])) <==>
              (&& AllUsers(q.sent, q.user) <= db.users.Keys
               && (flip && settled ==> t.group.owner in db.users)
               && (flip && q.user == t.group.owner && !q.sent.completed ==> t.completedBy in db.users))
  {
    var ops := Prepare(db, q).ops;
    assert q.user in AllUsers(q.sent, q.user);
    assert |ops| in {2, 4};
    assert (forall i :: 0 <= i < |ops| ==> Finds(db, ops[i])) <==>
      Finds(db, ops[0]) && Finds(db, ops[1]) && (|ops| == 4 ==> Finds(db, ops[2]) && Finds(db, ops[3]));
  }

  /** Exactly: a PUT with nothing in between is accepted if and only if it is acceptable. */
  lemma AcceptedIff(db: DB, q: Request)
    ensures Prepare(db, q).Commit? && Succeeds(db, Prepare(db, q).ops) <==> Acceptable(db, q)
  {
    if q.sent.group.readers.Members? && q.sent.group.writers.Members? && q.id in db.tasks {
      NormalizeIff(db.tasks[q.id].group, q.sent, q.user);
      assert AllKnown(db, q) <==> AllUsers(q.sent, q.user) <= db.users.Keys;
      if Prepare(db, q).Commit? {
        PlanFinds(db, q);
        RunsIff(db, Prepare(db, q).ops, |Prepare(db, q).ops|);
      }
    }
  }

  predicate Unset(t: Task) {
    t.completedBy == "" && t.completedAt == None
  }

  /** An owner's un-completion unsets the completion data exactly when the request sends it unset. */
  lemma OwnerUnsetsIff(db: DB, q: Request)
    requires Prepare(db, q).Commit? && Succeeds(db, Prepare(db, q).ops)
    requires q.id in db.tasks && db.tasks[q.id].completed && q.user == db.tasks[q.id].group.owner && !q.sent.completed
    ensures q.id in Put(db, q).tasks && !Put(db, q).tasks[q.id].completed
    ensures Unset(Put(db, q).tasks[q.id]) <==> Unset(q.sent)
  {
    PutTakesEffect(db, q);
  }

  /** A task owned and completed by one user, who sends it back open and otherwise as it was: it
      is stored open, with a completer and a time. */
  lemma OwnerLeavesSet(u: string, id: ID, now: Time)
    requires u != ""
    ensures var all := Members(map[u := true]);
            var done := Task(Group(u, all, all), "", 0, true, u, Some(now), None, []);
            var db := Put(DB(map[u := 0], map[id := done]), Request(u, id, done.(completed := false), now));
            id in db.tasks && !db.tasks[id].completed && !Unset(db.tasks[id])
  {
    var all := Members(map[u := true]);
    var done := Task(Group(u, all, all), "", 0, true, u, Some(now), None, []);
    var open := done.(completed := false);
    var db, q := DB(map[u := 0], map[id := done]), Request(u, id, open, now);
    assert all.m[u := true] == all.m && all.m + (map w | w in all.m :: true) == all.m;
    assert Normalize(open, u) == open && AllUsers(open, u) == {u};
    var ops := [StoreTask(id, open), AddCoin(u, 0), AddCoin(u, 0), CheckUsersExist({u})];
    assert Prepare(db, q) == Commit(ops);
    var d := DB(map[u := 0], map[id := open]);
    assert RunTo(db, ops, 0) == Some(db);
    assert RunTo(db, ops, 1) == Some(d) by { assert db.tasks[id := open] == d.tasks; }
    assert d.users[u := Wrap64(0)] == d.users;
    assert RunTo(db, ops, 2) == Some(d);
    assert RunTo(db, ops, 3) == Some(d);
  }

  function PutTo(db: DB, qs: seq<Request>, n: nat): DB
    requires n <= |qs|
  {
    if n == 0 then db else Put(PutTo(db, qs, n - 1), qs[n - 1])
  }

  /** Frozen while complete, over whole runs of PUTs on any tasks by any users. */
  lemma {:induction false} FrozenWhileComplete(db: DB, qs: seq<Request>, n: nat, id: ID)
    requires n <= |qs| && id in db.tasks
    requires forall i :: 0 <= i <= n ==> id in PutTo(db, qs, i).tasks ==> PutTo(db, qs, i).tasks[id].completed
    ensures id in PutTo(db, qs, n).tasks && SameOutcome(db.tasks[id], PutTo(db, qs, n).tasks[id])
  {
    if n > 0 {
      FrozenWhileComplete(db, qs, n - 1, id);
      PutFreezes(PutTo(db, qs, n - 1), qs[n - 1], id);
      assert id in PutTo(db, qs, n - 1).tasks && id in PutTo(db, qs, n).tasks;
    }
  }

  /** Over every run: while the owner sends nothing, nobody else changes whose task it is,
      who may see it, what it pays or when it is due. */
  lemma {:induction false} OnlyOwnerReshapes(db: DB, qs: seq<Request>, n: nat, id: ID)
    requires n <= |qs| && id in db.tasks
    requires forall i :: 0 <= i < n ==> qs[i].user != db.tasks[id].group.owner
    ensures id in PutTo(db, qs, n).tasks
    ensures var t, t' := db.tasks[id], PutTo(db, qs, n).tasks[id];
            t'.group == t.group && t'.bounty == t.bounty && t'.due == t.due
  {
    if n > 0 {
      OnlyOwnerReshapes(db, qs, n - 1, id);
      PutFreezes(PutTo(db, qs, n - 1), qs[n - 1], id);
    }
  }
}
