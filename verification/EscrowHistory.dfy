/** The escrow invariant read off the requests of a run: who exists, which tasks stand, and what
    each balance is made of. */
module EscrowHistory {
  import opened Options
  import opened Coin
  import opened Ledger
  import opened Escrow
  import opened Steps

  /* ---------- who exists ---------- */

  predicate Creates(events: seq<Event>, i: nat, u: string) {
    i < |events| && events[i].Create? && events[i].name == u
  }

  /** Request i is the first to create u. */
  ghost predicate FirstCreates(events: seq<Event>, i: nat, u: string) {
    Creates(events, i, u) && forall j: nat :: j < i ==> !Creates(events, j, u)
  }

  predicate Removes(events: seq<Event>, i: nat, u: string) {
    i < |events| && events[i] == Remove(u)
  }

  lemma StepUsers(w: World, e: Event, u: string)
    requires w.db.users.Keys <= w.logins
    ensures Step(w, e).db.users.Keys <= Step(w, e).logins
    ensures u in Step(w, e).logins <==> u in w.logins || (e.Create? && e.name == u)
    ensures u in Step(w, e).db.users
       <==> (u in w.db.users && e != Remove(u)) || (u !in w.logins && e.Create? && e.name == u)
  {
    match e
    case Create(_, _) =>
    case Remove(_) =>
    case Patch(name, coin) => RunsIff(w.db, [CheckUsersExist({name}), AddCoin(name, coin)], 2);
    case Post(_, _, _) =>
    case PutTask(q) => PutKeepsUsers(w.db, q);
    case Delete(_, _) =>
  }

  /** A login is there exactly if some request was to create it, whatever has become of the user. */
  lemma {:induction false} LoginsIff(events: seq<Event>, n: nat, u: string)
    requires n <= |events|
    ensures Run(events, n).db.users.Keys <= Run(events, n).logins
    ensures u in Run(events, n).logins <==> exists i: nat :: i < n && Creates(events, i, u)
  {
    if n > 0 {
      LoginsIff(events, n - 1, u);
      StepUsers(Run(events, n - 1), events[n - 1], u);
      assert events[n - 1].Create? && events[n - 1].name == u <==> Creates(events, n - 1, u);
    }
  }

  /** A user is there exactly if it was created, for the first time, and has not been removed since. */
  lemma {:induction false} UsersIff(events: seq<Event>, n: nat, u: string)
    requires n <= |events|
    ensures u in Run(events, n).db.users
       <==> Since((k: nat) => FirstCreates(events, k, u), (k: nat) => Removes(events, k, u), n)
  {
    if n > 0 {
      UsersIff(events, n - 1, u);
      LoginsIff(events, n - 1, u);
      StepUsers(Run(events, n - 1), events[n - 1], u);
      SinceNext((k: nat) => FirstCreates(events, k, u), (k: nat) => Removes(events, k, u), n - 1);
    }
  }

  /* ---------- which tasks stand ---------- */

  predicate Posts(events: seq<Event>, i: nat, id: ID) {
    && i < |events| && events[i].Post? && events[i].id == id
    && PostAccepted(Run(events, i).db, events[i].user, id, events[i].sent)
  }

  /** The owner of task id deletes it. */
  predicate Deletes(events: seq<Event>, i: nat, id: ID) {
    && i < |events| && events[i].Delete? && events[i].id == id
    && id in Run(events, i).db.tasks && Run(events, i).db.tasks[id].group.owner == events[i].user
  }

  predicate Stands(events: seq<Event>, n: nat, id: ID) {
    n <= |events| && id in Run(events, n).db.tasks
  }

  lemma StepTasks(events: seq<Event>, n: nat, id: ID)
    requires n < |events|
    ensures Stands(events, n + 1, id) <==> Posts(events, n, id) || (Stands(events, n, id) && !Deletes(events, n, id))
  {
    var w, e := Run(events, n), events[n];
    assert Run(events, n + 1) == Step(w, e);
    if e.PutTask? {
      PutTasks(w.db, e.q);
    } else if e.Patch? {
      PatchTasks(w.db, e.name, e.coin);
    }
  }

  lemma PatchTasks(db: DB, name: string, coin: int64)
    ensures Update(db, [CheckUsersExist({name}), AddCoin(name, coin)]).tasks == db.tasks
  {
    var ops := [CheckUsersExist({name}), AddCoin(name, coin)];
    if Succeeds(db, ops) { StoredNone(db, ops, 2); }
  }

  /** A task stands exactly if it was posted and its owner has not deleted it since. */
  lemma TasksIff(events: seq<Event>, n: nat, id: ID)
    requires n <= |events|
    ensures Stands(events, n, id)
       <==> Since((k: nat) => Posts(events, k, id), (k: nat) => Deletes(events, k, id), n)
  {
    forall k: nat | k < n
      ensures Stands(events, k + 1, id) <==> Posts(events, k, id) || (Stands(events, k, id) && !Deletes(events, k, id))
    {
      StepTasks(events, k, id);
    }
    HoldsSince((k: nat) => Stands(events, k, id), (k: nat) => Posts(events, k, id),
               (k: nat) => Deletes(events, k, id), n);
  }

  /** Exactly: a POST is accepted if its sender owns the task, neither member map is nil, everyone it
      names exists, and the new id is free; completed or not, and whatever the bounty. */
  lemma PostAcceptedIff(db: DB, user: string, id: ID, sent: Task)
    ensures PostAccepted(db, user, id, sent) <==>
      && sent.group.owner == user && sent.group.readers.Members? && sent.group.writers.Members? && id !in db.tasks
      && forall u :: u == user || u in sent.group.readers.m || u in sent.group.writers.m ==> u in db.users
  {
    if sent.group.readers.Members? && sent.group.writers.Members? {
      assert forall u :: u in AllUsers(sent, user) <==>
        u == user || u in sent.group.readers.m || u in sent.group.writers.m;
    }
  }

  /** It stores the task as sent, with its owner among the readers and writers. */
  lemma PostStores(w: World, user: string, id: ID, sent: Task)
    requires PostAccepted(w.db, user, id, sent)
    ensures var w' := Step(w, Post(user, id, sent));
            && w' == w.(db := w.db.(tasks := w'.db.tasks)) && id in w'.db.tasks
            && (forall i :: i != id ==> (i in w'.db.tasks <==> i in w.db.tasks))
            && (forall i :: i in w.db.tasks ==> w'.db.tasks[i] == w.db.tasks[i])
            && var t := w'.db.tasks[id];
               && t == sent.(group := t.group) && t.group.owner == user
               && forall u :: (t.group.readers.Has(u) <==> u == user || sent.group.readers.Has(u))
                           && (t.group.writers.Has(u) <==> u == user || sent.group.writers.Has(u))
  {
  }

  /* ---------- what a balance is made of ---------- */

  /** What a request grants u: its coin at the first creation, and what an admin adds while it is
      there. */
  function GrantIn(w: World, e: Event, u: string): int {
    match e
    case Create(name, coin) => if name == u && u !in w.logins then coin else 0
    case Patch(name, coin) => if name == u && u in w.db.users then coin else 0
    case _ => 0
  }

  function GrantsUpTo(events: seq<Event>, n: nat, u: string): int
    requires n <= |events|
  {
    if n == 0 then 0 else GrantsUpTo(events, n - 1, u) + GrantIn(Run(events, n - 1), events[n - 1], u)
  }

  /** What u has or owes by tasks, at the moment their owners deleted them. */
  function SettledUpTo(events: seq<Event>, n: nat, u: string): int
    requires n <= |events|
  {
    if n == 0 then 0
    else SettledUpTo(events, n - 1, u)
         + if events[n - 1].Delete? && Deletes(events, n - 1, events[n - 1].id)
           then Share(Run(events, n - 1).db.tasks[events[n - 1].id], u) else 0
  }

  lemma StepGrants(w: World, e: Event, u: string)
    requires w.db.users.Keys <= w.logins
    ensures Granted(Step(w, e).grants, u) == Granted(w.grants, u) + GrantIn(w, e, u)
  {
    if e.Create? && e.name !in w.logins {
      assert Step(w, e).grants == w.grants + [Grant(e.name, e.coin)];
      GrantAccount(w, Grant(e.name, e.coin), u);
    } else if e.Patch? && e.name in w.db.users {
      assert Step(w, e).grants == w.grants + [Grant(e.name, e.coin)];
      GrantAccount(w, Grant(e.name, e.coin), u);
    } else {
      assert Step(w, e).grants == w.grants;
    }
  }

  lemma StepSettled(w: World, e: Event, u: string)
    ensures Settled(Step(w, e).deleted, u) == Settled(w.deleted, u) +
              if e.Delete? && e.id in w.db.tasks && w.db.tasks[e.id].group.owner == e.user
              then Share(w.db.tasks[e.id], u) else 0
  {
    if e.Delete? && e.id in w.db.tasks && w.db.tasks[e.id].group.owner == e.user {
      assert Step(w, e).deleted == w.deleted + [w.db.tasks[e.id]];
      SettledMore(w.deleted, w.db.tasks[e.id], u);
    } else {
      assert Step(w, e).deleted == w.deleted;
    }
  }

  lemma SettledMore(deleted: seq<Task>, t: Task, u: string)
    ensures Settled(deleted + [t], u) == Settled(deleted, u) + Share(t, u)
  {
    assert (deleted + [t])[..|deleted|] == deleted;
  }

  lemma {:induction false} LedgersAre(events: seq<Event>, n: nat, u: string)
    requires n <= |events|
    ensures Granted(Run(events, n).grants, u) == GrantsUpTo(events, n, u)
    ensures Settled(Run(events, n).deleted, u) == SettledUpTo(events, n, u)
  {
    if n > 0 {
      LedgersAre(events, n - 1, u);
      LoginsIff(events, n - 1, u);
      StepGrants(Run(events, n - 1), events[n - 1], u);
      StepSettled(Run(events, n - 1), events[n - 1], u);
    }
  }

  /** u's balance is made of these grants, these settlements, and the standing tasks. */
  ghost predicate Composed(w: World, u: string, grants: int, settled: int) {
    u in w.db.users ==> w.db.users[u] == Wrap64(grants + settled + Sum(SharesIn(w.db.tasks, u)))
  }

  lemma BalanceOf(w: World, u: string, grants: int, settled: int)
    requires Escrow.Escrow(w) && Granted(w.grants, u) == grants && Settled(w.deleted, u) == settled
    ensures Composed(w, u, grants, settled)
  {
  }

  /** Over every run without a leak: a balance is what the requests granted its user, plus what
      deleted tasks settled, plus bounties earned, minus bounties owed, modulo 2^64. */
  lemma BalanceIs(events: seq<Event>, n: nat, u: string)
    requires n <= |events| && Tight(events, n)
    ensures Composed(Run(events, n), u, GrantsUpTo(events, n, u), SettledUpTo(events, n, u))
  {
    EscrowHolds(events, n);
    LedgersAre(events, n, u);
    BalanceOf(Run(events, n), u, GrantsUpTo(events, n, u), SettledUpTo(events, n, u));
  }

  /* ---------- the other leaks ---------- */

  lemma ClaimedPost(w: World)
    requires Escrow.Escrow(w) && w.db == THREE
    ensures PostAccepted(w.db, "a", 1, BY_B) && !Escrow.Escrow(Step(w, Post("a", 1, BY_B)))
  {
    NormalizeAll(BY_B, "a");
    assert PostLeaks(w.db, "a", 1, BY_B);
    PostBreaks(w, "a", 1, BY_B);
  }

  /** After three users were created, a posts a job for 5 that claims to be done by b. */
  lemma PostLeakHappens()
    ensures Escrow.Escrow(Run(LEAK, 3)) && Run(LEAK, 3).db == THREE
    ensures PostAccepted(THREE, "a", 1, BY_B) && !Escrow.Escrow(Step(Run(LEAK, 3), Post("a", 1, BY_B)))
  {
    LeakStart();
    EscrowHolds(LEAK, 3);
    ClaimedPost(Run(LEAK, 3));
  }

  lemma HandedOver(w: World)
    requires Escrow.Escrow(w) && w.db == DURING
    ensures var q := Request("a", 1, BY_B.(group := BY_B.group.(owner := "b")), 8);
            PutAccepted(w.db, q) && !Escrow.Escrow(Step(w, PutTask(q)))
  {
    var q := Request("a", 1, BY_B.(group := BY_B.group.(owner := "b")), 8);
    AcceptedIff(DURING, q);
    PutBreaksEscrow(w, q);
  }

  /** And after b has done a job of a's, a hands the job over to b, who then owes it to nobody. */
  lemma OwnerLeakHappens()
    ensures Escrow.Escrow(Run(LEAK, 5)) && Run(LEAK, 5).db == DURING
    ensures var q := Request("a", 1, BY_B.(group := BY_B.group.(owner := "b")), 8);
            PutAccepted(DURING, q) && !Escrow.Escrow(Step(Run(LEAK, 5), PutTask(q)))
  {
    DuringHolds();
    HandedOver(Run(LEAK, 5));
  }
}
