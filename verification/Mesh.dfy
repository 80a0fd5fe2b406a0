/** The buses of one stream (stream/river/bus.go): each new bus dials every bus registered
    before it.

    A dialer stands: it connects to whoever listens on its address, and again after a
    disconnect (vendor/github.com/go-mangos/mangos/core.go:570-648).  Listening on an address
    that is in use fails, and then the whole Update is rolled back. */
module Mesh {
  import opened Options
  import opened Steps
  import Address
  import opened Wire

  /** The n-th bus made in a user's bucket of the stream. */
  datatype Peer = Peer(user: string, n: nat)

  /** What a row names, and an address: numbers wrap. */
  datatype Spot = Spot(user: string, num: u64)

  function At(p: Peer): Spot {
    Spot(p.user, Num(p.n))
  }

  datatype Dialer = Dialer(from: Peer, to: Spot)

  /** Buses made by bucket, rows, listening sockets, dialers, and buses in order of creation. */
  datatype State = State(
    counters: map<string, nat>,
    rows: map<string, set<u64>>,
    open: set<Peer>,
    dialers: set<Dialer>,
    made: seq<Peer>)

  const INIT := State(map[], map[], {}, {}, [])

  predicate Registered(s: State, at: Spot) {
    at.user in s.rows && at.num in s.rows[at.user]
  }

  function Counter(s: State, user: string): nat {
    if user in s.counters then s.counters[user] else 0
  }

  function RowsOf(s: State, user: string): set<u64> {
    if user in s.rows then s.rows[user] else {}
  }

  predicate Taken(open: set<Peer>, at: Spot) {
    exists q :: q in open && At(q) == at
  }

  datatype Step =
    | NewBus(user: string)
    | DeleteBus(at: Spot)
    | Close(p: Peer)

  function Next(s: State, user: string): Peer {
    Peer(user, Counter(s, user) + 1)
  }

  /** One dialer to every registered bus. */
  function Dials(rows: map<string, set<u64>>, p: Peer): set<Dialer> {
    set u, k | u in rows && k in rows[u] :: Dialer(p, Spot(u, k))
  }

  function Added(s: State, p: Peer): State {
    State(s.counters[p.user := p.n],
          s.rows[p.user := RowsOf(s, p.user) + {Num(p.n)}],
          s.open + {p},
          s.dialers + Dials(s.rows, p),
          s.made + [p])
  }

  function Apply(s: State, step: Step): State {
    match step
    case NewBus(user) => if Taken(s.open, At(Next(s, user))) then s else Added(s, Next(s, user))
    case DeleteBus(at) => if at.user in s.rows then s.(rows := s.rows[at.user := s.rows[at.user] - {at.num}]) else s
    case Close(p) => s.(open := s.open - {p})
  }

  function Run(steps: seq<Step>, n: nat): State
    requires n <= |steps|
  {
    if n == 0 then INIT else Apply(Run(steps, n - 1), steps[n - 1])
  }

  /* ---------- what every step keeps ---------- */

  /** Some bus before the i-th had this address. */
  ghost predicate Before(s: State, i: nat, at: Spot) {
    exists k :: 0 <= k < i && k < |s.made| && At(s.made[k]) == at
  }

  ghost predicate Numbered(s: State) {
    && (forall i, j :: 0 <= i < j < |s.made| ==> s.made[i] != s.made[j])
    && (forall p :: p in s.made ==> 0 < p.n <= Counter(s, p.user))
    && (forall p :: p in s.open ==> p in s.made)
    && (forall at :: Registered(s, at) ==> Before(s, |s.made|, at))
  }

  ghost predicate DialersOk(s: State) {
    && (forall d :: d in s.dialers ==> d.from in s.made)
    && (forall i, at :: 0 <= i < |s.made| && Dialer(s.made[i], at) in s.dialers ==> Before(s, i, at))
  }

  /** No address is listened on twice. */
  ghost predicate OneListener(s: State) {
    forall p, q :: p in s.open && q in s.open && At(p) == At(q) ==> p == q
  }

  /** The later of two open buses dials the earlier, if that is still registered. */
  predicate PairOk(s: State, i: nat, j: nat)
    requires i < |s.made| && j < |s.made|
  {
    i < j && s.made[i] in s.open && s.made[j] in s.open && Registered(s, At(s.made[i])) ==>
      Dialer(s.made[j], At(s.made[i])) in s.dialers
  }

  ghost predicate Meshed(s: State) {
    forall i, j :: 0 <= i < |s.made| && 0 <= j < |s.made| ==> PairOk(s, i, j)
  }

  lemma AddedNumbered(s: State, p: Peer)
    requires Numbered(s) && p == Next(s, p.user)
    ensures Numbered(Added(s, p)) && p !in s.made
  {
    var s' := Added(s, p);
    assert s'.made == s.made + [p] && At(s'.made[|s.made|]) == At(p);
    forall at | Registered(s', at) ensures Before(s', |s'.made|, at) {
      if Registered(s, at) {
        var k :| 0 <= k < |s.made| && At(s.made[k]) == at;
        assert At(s'.made[k]) == at;
      } else {
        assert at == At(p);
      }
    }
  }

  lemma AddedDialers(s: State, p: Peer)
    requires Numbered(s) && DialersOk(s) && p == Next(s, p.user)
    ensures DialersOk(Added(s, p))
  {
    var s' := Added(s, p);
    AddedNumbered(s, p);
    forall i, at | 0 <= i < |s'.made| && Dialer(s'.made[i], at) in s'.dialers ensures Before(s', i, at) {
      if i < |s.made| {
        assert s'.made[i] == s.made[i] && s.made[i] in s.made;
        assert Dialer(s.made[i], at) in s.dialers && Before(s, i, at);
      } else {
        assert Dialer(p, at) !in s.dialers && Registered(s, at) && Before(s, |s.made|, at);
      }
      var k :| 0 <= k < i && k < |s.made| && At(s.made[k]) == at;
      assert At(s'.made[k]) == at;
    }
  }

  lemma StepNumbered(s: State, step: Step)
    requires Numbered(s) && DialersOk(s) && OneListener(s)
    ensures Numbered(Apply(s, step)) && DialersOk(Apply(s, step)) && OneListener(Apply(s, step))
  {
    var s' := Apply(s, step);
    if step.NewBus? {
      AddedNumbered(s, Next(s, step.user));
      AddedDialers(s, Next(s, step.user));
    } else {
      assert forall at :: Registered(s', at) ==> Registered(s, at);
      assert forall i, at :: Before(s, i, at) ==> Before(s', i, at);
    }
  }

  /** A bus made at a free address keeps each pair. */
  lemma NewBusPair(s: State, p: Peer, i: nat, j: nat)
    requires Numbered(s) && Meshed(s) && i < j <= |s.made| && p == Next(s, p.user) && !Taken(s.open, At(p))
    ensures PairOk(Added(s, p), i, j)
  {
    var s' := Added(s, p);
    AddedNumbered(s, p);
    var a, b := s'.made[i], s'.made[j];
    assert a == s.made[i] && a in s.made && a != p;
    if a in s'.open && Registered(s', At(a)) {
      assert a in s.open && At(a) != At(p);
      assert Registered(s, At(a));
      if j < |s.made| {
        assert b == s.made[j] && b in s.made && PairOk(s, i, j);
      }
    }
  }

  lemma StepMeshed(s: State, step: Step)
    requires Numbered(s) && Meshed(s)
    ensures Meshed(Apply(s, step))
  {
    var s' := Apply(s, step);
    forall i, j | 0 <= i < |s'.made| && 0 <= j < |s'.made| ensures PairOk(s', i, j) {
      if step.NewBus? && s' != s && i < j {
        NewBusPair(s, Next(s, step.user), i, j);
      } else if !step.NewBus? || s' == s {
        assert PairOk(s, i, j);
      }
    }
  }

  lemma {:induction false} RunMeshed(steps: seq<Step>, n: nat)
    requires n <= |steps|
    ensures var s := Run(steps, n); Numbered(s) && DialersOk(s) && OneListener(s) && Meshed(s)
  {
    if n > 0 {
      RunMeshed(steps, n - 1);
      StepNumbered(Run(steps, n - 1), steps[n - 1]);
      StepMeshed(Run(steps, n - 1), steps[n - 1]);
    }
  }

  /* ---------- the mesh ---------- */

  /** Whether a's dialers lead to b, both open. */
  function Leads(s: State, a: Peer, b: Peer): nat {
    if a in s.open && b in s.open && Dialer(a, At(b)) in s.dialers then 1 else 0
  }

  /** The copies of a message sent by a that reach b: one for each link between them. */
  function Copies(s: State, a: Peer, b: Peer): nat {
    Leads(s, a, b) + if a == b then 0 else Leads(s, b, a)
  }

  /** Two buses share an address only 2^64 buses apart. */
  lemma SameSpot(p: Peer, q: Peer)
    requires At(p) == At(q) && p != q
    ensures p.n >= q.n + U64 || q.n >= p.n + U64
  {
    if p.n <= q.n { SequenceReuse(p.n, q.n); } else { SequenceReuse(q.n, p.n); }
  }

  /** Among the first 2^64 buses of its bucket, none finds its own address dialed before. */
  lemma NotDialed(s: State, i: nat, j: nat)
    requires Numbered(s) && DialersOk(s) && i <= j < |s.made| && Counter(s, s.made[j].user) <= U64
    ensures Dialer(s.made[i], At(s.made[j])) !in s.dialers
  {
    if Before(s, i, At(s.made[j])) {
      var k :| 0 <= k < i && At(s.made[k]) == At(s.made[j]);
      assert s.made[k] in s.made && s.made[j] in s.made;
      SameSpot(s.made[k], s.made[j]);
      assert false;
    }
  }

  /** Full mesh, in every reachable state: of two registered open buses the later has dialed the
      earlier, so they are linked; exactly once, and a Send reaches the other exactly once, if and
      only if the earlier has not dialed a former bus of the later's address, which takes 2^64
      buses; and a bus is not linked to itself, with the same exception. */
  lemma FullMesh(steps: seq<Step>, n: nat, i: nat, j: nat)
    requires n <= |steps|
    requires var s := Run(steps, n);
             && i < j < |s.made|
             && s.made[i] in s.open && Registered(s, At(s.made[i]))
             && s.made[j] in s.open && Registered(s, At(s.made[j]))
    ensures var s := Run(steps, n); var a, b := s.made[i], s.made[j];
            && Leads(s, b, a) == 1
            && Copies(s, a, b) == Copies(s, b, a) >= 1
            && (Copies(s, a, b) == 1 <==> Dialer(a, At(b)) !in s.dialers)
            && (Counter(s, b.user) <= U64 ==> Copies(s, a, b) == 1 && Copies(s, b, b) == 0)
            && (Counter(s, a.user) <= U64 ==> Copies(s, a, a) == 0)
  {
    RunMeshed(steps, n);
    var s := Run(steps, n);
    var a, b := s.made[i], s.made[j];
    assert PairOk(s, i, j) && a != b;
    if Counter(s, b.user) <= U64 {
      NotDialed(s, i, j);
      NotDialed(s, j, j);
    }
    if Counter(s, a.user) <= U64 { NotDialed(s, i, i); }
  }

  /** Whatever is deleted or closed in between, no bus is made twice, no two open ones share an
      address, and any two that do are 2^64 buses apart. */
  lemma IdsAreFresh(steps: seq<Step>, n: nat, i: nat, j: nat)
    requires n <= |steps| && i < j < |Run(steps, n).made|
    ensures var s := Run(steps, n); var a, b := s.made[i], s.made[j];
            && a != b
            && (At(a) == At(b) ==> a !in s.open || b !in s.open)
            && (At(a) == At(b) ==> a.n >= b.n + U64 || b.n >= a.n + U64)
  {
    RunMeshed(steps, n);
    var s := Run(steps, n);
    if At(s.made[i]) == At(s.made[j]) { SameSpot(s.made[i], s.made[j]); }
  }

  /* ---------- what is there, by what was done ---------- */

  /** Step k makes bus p: p is next in its bucket, and nobody listens on its address. */
  predicate Makes(steps: seq<Step>, k: nat, p: Peer) {
    && k < |steps| && steps[k] == NewBus(p.user)
    && p == Next(Run(steps, k), p.user) && !Taken(Run(steps, k).open, At(p))
  }

  predicate MakesAt(steps: seq<Step>, k: nat, at: Spot) {
    k < |steps| && steps[k] == NewBus(at.user) && Makes(steps, k, Next(Run(steps, k), at.user))
    && Num(Next(Run(steps, k), at.user).n) == at.num
  }

  predicate Deletes(steps: seq<Step>, k: nat, at: Spot) {
    k < |steps| && steps[k] == DeleteBus(at)
  }

  predicate Closes(steps: seq<Step>, k: nat, p: Peer) {
    k < |steps| && steps[k] == Close(p)
  }

  predicate RegisteredAt(steps: seq<Step>, n: nat, at: Spot) {
    n <= |steps| && Registered(Run(steps, n), at)
  }

  predicate OpenAt(steps: seq<Step>, n: nat, p: Peer) {
    n <= |steps| && p in Run(steps, n).open
  }

  lemma StepRows(steps: seq<Step>, n: nat, at: Spot)
    requires n < |steps|
    ensures RegisteredAt(steps, n + 1, at)
       <==> MakesAt(steps, n, at) || (RegisteredAt(steps, n, at) && !Deletes(steps, n, at))
  {
    assert Run(steps, n + 1) == Apply(Run(steps, n), steps[n]);
  }

  /** A row is there exactly if a bus was made at that address and it was not deleted since. */
  lemma RegisteredIff(steps: seq<Step>, n: nat, at: Spot)
    requires n <= |steps|
    ensures RegisteredAt(steps, n, at)
       <==> Since((k: nat) => MakesAt(steps, k, at), (k: nat) => Deletes(steps, k, at), n)
  {
    forall k: nat | k < n
      ensures RegisteredAt(steps, k + 1, at)
         <==> MakesAt(steps, k, at) || (RegisteredAt(steps, k, at) && !Deletes(steps, k, at))
    {
      StepRows(steps, k, at);
    }
    HoldsSince((k: nat) => RegisteredAt(steps, k, at), (k: nat) => MakesAt(steps, k, at),
               (k: nat) => Deletes(steps, k, at), n);
  }

  lemma StepOpen(steps: seq<Step>, n: nat, p: Peer)
    requires n < |steps|
    ensures OpenAt(steps, n + 1, p) <==> Makes(steps, n, p) || (OpenAt(steps, n, p) && !Closes(steps, n, p))
  {
    assert Run(steps, n + 1) == Apply(Run(steps, n), steps[n]);
  }

  /** A bus listens exactly if it was made and has not been closed since. */
  lemma OpenIff(steps: seq<Step>, n: nat, p: Peer)
    requires n <= |steps|
    ensures OpenAt(steps, n, p) <==> Since((k: nat) => Makes(steps, k, p), (k: nat) => Closes(steps, k, p), n)
  {
    forall k: nat | k < n
      ensures OpenAt(steps, k + 1, p) <==> Makes(steps, k, p) || (OpenAt(steps, k, p) && !Closes(steps, k, p))
    {
      StepOpen(steps, k, p);
    }
    HoldsSince((k: nat) => OpenAt(steps, k, p), (k: nat) => Makes(steps, k, p), (k: nat) => Closes(steps, k, p), n);
  }

  /** p dials an address exactly if a row was there when p was made. */
  lemma {:induction false} DialsIff(steps: seq<Step>, n: nat, p: Peer, at: Spot)
    requires n <= |steps|
    ensures Dialer(p, at) in Run(steps, n).dialers
       <==> exists k: nat :: k < n && Makes(steps, k, p) && RegisteredAt(steps, k, at)
  {
    if n > 0 {
      DialsIff(steps, n - 1, p, at);
      var s, s' := Run(steps, n - 1), Run(steps, n);
      assert Dialer(p, at) in s'.dialers <==>
        Dialer(p, at) in s.dialers || (Makes(steps, n - 1, p) && RegisteredAt(steps, n - 1, at));
    }
  }

  /** The buses made in a bucket so far. */
  function MadeIn(made: seq<Peer>, user: string): nat {
    if made == [] then 0
    else MadeIn(made[..|made| - 1], user) + if made[|made| - 1].user == user then 1 else 0
  }

  /** A bus is made exactly by the steps that make it. */
  lemma {:induction false} MadeIff(steps: seq<Step>, n: nat, p: Peer)
    requires n <= |steps|
    ensures p in Run(steps, n).made <==> exists k: nat :: k < n && Makes(steps, k, p)
  {
    if n > 0 {
      MadeIff(steps, n - 1, p);
      assert p in Run(steps, n).made <==> p in Run(steps, n - 1).made || Makes(steps, n - 1, p);
    }
  }

  lemma StepCount(s: State, step: Step, user: string)
    requires Counter(s, user) == MadeIn(s.made, user)
    ensures Counter(Apply(s, step), user) == MadeIn(Apply(s, step).made, user)
  {
    if step.NewBus? && !Taken(s.open, At(Next(s, step.user))) {
      var p := Next(s, step.user);
      assert Apply(s, step).made == s.made + [p] && (s.made + [p])[..|s.made|] == s.made;
    } else {
      assert Apply(s, step).made == s.made && Apply(s, step).counters == s.counters;
    }
  }

  /** The counter of a bucket counts the buses made in it. */
  lemma {:induction false} CounterIs(steps: seq<Step>, n: nat, user: string)
    requires n <= |steps|
    ensures Counter(Run(steps, n), user) == MadeIn(Run(steps, n).made, user)
  {
    if n > 0 {
      CounterIs(steps, n - 1, user);
      StepCount(Run(steps, n - 1), steps[n - 1], user);
    }
  }

  /* ---------- beyond 2^64 buses ---------- */

  /** After k buses of a, of which b dialed the first, all of a's are closed and deleted. */
  ghost predicate Idle(s: State, a: string, b: string, k: nat) {
    && Counter(s, a) == k && a in s.rows && s.rows[a] == {} && b in s.rows && s.rows[b] == {1}
    && s.open == {Peer(b, 1)} && Dialer(Peer(b, 1), Spot(a, 1)) in s.dialers
  }

  /** a comes, b comes, and then a leaves and comes and leaves until it has come k times. */
  function Visits(a: string, b: string, k: nat): seq<Step>
    requires k > 0
  {
    if k == 1 then [NewBus(a), NewBus(b), Close(Peer(a, 1)), DeleteBus(Spot(a, 1))]
    else Visits(a, b, k - 1) + [NewBus(a), Close(Peer(a, k)), DeleteBus(Spot(a, Num(k)))]
  }

  lemma {:induction false} RunPrefix(xs: seq<Step>, ys: seq<Step>, n: nat)
    requires n <= |xs|
    ensures Run(xs + ys, n) == Run(xs, n)
  {
    if n > 0 {
      RunPrefix(xs, ys, n - 1);
    }
  }

  lemma FirstVisit(a: string, b: string)
    requires a != b
    ensures Idle(Run(Visits(a, b, 1), 4), a, b, 1)
  {
    var steps := Visits(a, b, 1);
    assert Run(steps, 0) == INIT;
    assert Run(steps, 1) == Added(INIT, Peer(a, 1));
    var s := Added(Added(INIT, Peer(a, 1)), Peer(b, 1));
    assert At(Peer(a, 1)) != At(Peer(b, 1));
    assert Run(steps, 2) == s;
    assert Registered(Run(steps, 1), Spot(a, 1)) && Dialer(Peer(b, 1), Spot(a, 1)) in s.dialers;
    assert Run(steps, 3) == s.(open := {Peer(b, 1)});
  }

  lemma VisitAgain(s: State, a: string, b: string, k: nat)
    requires a != b && Idle(s, a, b, k)
    ensures var p := Peer(a, k + 1);
            && Apply(s, NewBus(a)) == Added(s, p)
            && Idle(Apply(Apply(Added(s, p), Close(p)), DeleteBus(At(p))), a, b, k + 1)
  {
    var p := Peer(a, k + 1);
    assert At(p) != At(Peer(b, 1));
    assert Added(s, p).open - {p} == s.open;
  }

  lemma {:induction false} ManyVisits(a: string, b: string, k: nat)
    requires a != b && k > 0
    ensures Idle(Run(Visits(a, b, k), |Visits(a, b, k)|), a, b, k)
  {
    if k == 1 {
      FirstVisit(a, b);
    } else {
      ManyVisits(a, b, k - 1);
      var xs, steps := Visits(a, b, k - 1), Visits(a, b, k);
      var n, s := |xs|, Run(xs, |xs|);
      RunPrefix(xs, [NewBus(a), Close(Peer(a, k)), DeleteBus(Spot(a, Num(k)))], n);
      VisitAgain(s, a, b, k - 1);
      assert steps[n] == NewBus(a) && steps[n + 1] == Close(Peer(a, k)) && steps[n + 2] == DeleteBus(At(Peer(a, k)));
      assert Run(steps, n + 1) == Added(s, Peer(a, k));
      assert Run(steps, n + 2) == Apply(Added(s, Peer(a, k)), Close(Peer(a, k)));
    }
  }

  /** With k = 2^64, a run in which two registered open buses are linked twice: b still dials the address of the
      first bus of a, and 2^64 buses later a gets it again. */
  lemma LinkedTwice(a: string, b: string, k: nat)
    requires a != b && k == U64
    ensures var steps := Visits(a, b, k) + [NewBus(a)];
            var s := Run(steps, |steps|);
            && Peer(a, k + 1) in s.open && Registered(s, At(Peer(a, k + 1)))
            && Peer(b, 1) in s.open && Registered(s, At(Peer(b, 1)))
            && Copies(s, Peer(b, 1), Peer(a, k + 1)) == 2
  {
    var xs := Visits(a, b, k);
    var s := Run(xs, |xs|);
    ManyVisits(a, b, k);
    RunPrefix(xs, [NewBus(a)], |xs|);
    VisitAgain(s, a, b, k);
    assert At(Peer(a, k + 1)) == Spot(a, 1) && At(Peer(b, 1)) == Spot(b, 1);
    assert Registered(s, Spot(b, 1)) && Dialer(Peer(a, k + 1), Spot(b, 1)) in Dials(s.rows, Peer(a, k + 1));
  }

  /* ---------- as NewBus does it ---------- */

  class Stream {
    const id: string
    var counters: map<string, nat>
    var rows: map<string, set<u64>>
    var open: set<Peer>
    var dials: set<(Peer, string)>
    ghost var dialers: set<Dialer>
    ghost var made: seq<Peer>

    ghost function St(): State
      reads this
    {
      State(counters, rows, open, dialers, made)
    }

    function AddrAt(at: Spot): string {
      Address.AddrOf(Address.Bus(id, at.user, at.num))
    }

    /** The addresses dialed are those of the spots. */
    ghost predicate Valid()
      reads this
    {
      dials == set d | d in dialers :: (d.from, AddrAt(d.to))
    }

    constructor (id: string)
      ensures this.id == id && Valid() && St() == INIT
    {
      this.id := id;
      counters, rows, open, dials, dialers, made := map[], map[], {}, {}, {}, [];
    }

    /** The two cursor loops (bus.go:45-60): the address of every registered bus, once. */
    method Clients() returns (clients: seq<string>, ghost who: seq<Spot>)
      ensures |clients| == |who| && forall i :: 0 <= i < |who| ==> clients[i] == AddrAt(who[i])
      ensures forall at :: at in who <==> Registered(St(), at)
      ensures forall i, j :: 0 <= i < j < |clients| ==> clients[i] != clients[j]
    {
      clients, who := [], [];
      var outs := rows.Keys;
      while outs != {}
        invariant outs <= rows.Keys && |clients| == |who|
        invariant forall i :: 0 <= i < |who| ==> clients[i] == AddrAt(who[i])
        invariant forall at :: at in who <==> Registered(St(), at) && at.user !in outs
        invariant forall i, j :: 0 <= i < j < |who| ==> who[i] != who[j]
        decreases outs
      {
        var out :| out in outs;
        outs := outs - {out};
        var prefix := Address.SCHEME + id + "/" + (out + "/");
        var ins := rows[out];
        while ins != {}
          invariant ins <= rows[out] && |clients| == |who|
          invariant forall i :: 0 <= i < |who| ==> clients[i] == AddrAt(who[i])
          invariant forall at :: at in who <==>
                      Registered(St(), at) && at.user !in outs && !(at.user == out && at.num in ins)
          invariant forall i, j :: 0 <= i < j < |who| ==> who[i] != who[j]
          decreases ins
        {
          var n :| n in ins;
          Address.ListenIsDial(id, out, n);
          ins := ins - {n};
          clients := clients + [prefix + FormatUint(n)];
          who := who + [Spot(out, n)];
        }
      }
      forall i, j | 0 <= i < j < |clients| ensures clients[i] != clients[j] {
        Address.InStreamInjective(id, who[i].user, who[i].num, who[j].user, who[j].num);
      }
    }

    /** The dial loop (bus.go:99-112): a standing dialer for each address. */
    method DialAll(p: Peer, clients: seq<string>)
      modifies this`dials
      ensures dials == old(dials) + set i | 0 <= i < |clients| :: (p, clients[i])
    {
      for i := 0 to |clients|
        invariant dials == old(dials) + set j | 0 <= j < i :: (p, clients[j])
      {
        dials := dials + {(p, clients[i])};
      }
    }

    /** Whether Listen finds the address in use; within a stream, addresses tell buses apart. */
    method InUse(addr: string, ghost at: Spot) returns (used: bool)
      requires addr == AddrAt(at)
      ensures used <==> Taken(open, at)
    {
      used := exists q :: q in open && AddrAt(At(q)) == addr;
      forall q | q in open ensures AddrAt(At(q)) == addr <==> At(q) == at {
        Address.InStreamInjective(id, q.user, Num(q.n), at.user, at.num);
      }
    }

    /** NewBus: read the clients, take a number, register, listen, dial; None where the address is
        in use, with everything rolled back. */
    method Create(user: string) returns (p: Option<Peer>)
      requires Valid()
      modifies this
      ensures Valid() && St() == Apply(old(St()), NewBus(user))
      ensures p == if Taken(old(open), At(Next(old(St()), user))) then None else Some(Next(old(St()), user))
    {
      ghost var before := St();
      var clients, who := Clients();
      var n := (if user in counters then counters[user] else 0) + 1;
      var bus := Peer(user, n);
      var used := InUse(AddrAt(At(bus)), At(bus));
      if used {
        return None;
      }
      counters := counters[user := n];
      rows := rows[user := (if user in rows then rows[user] else {}) + {Num(n)}];
      open := open + {bus};
      DialAll(bus, clients);
      dialers := dialers + Dials(before.rows, bus);
      DialedAll(before, bus, clients, who);
      made := made + [bus];
      p := Some(bus);
    }

    lemma DialedAll(s: State, p: Peer, clients: seq<string>, who: seq<Spot>)
      requires |clients| == |who| && forall i :: 0 <= i < |who| ==> clients[i] == AddrAt(who[i])
      requires forall at :: at in who <==> Registered(s, at)
      ensures (set i | 0 <= i < |clients| :: (p, clients[i])) == set d | d in Dials(s.rows, p) :: (d.from, AddrAt(d.to))
    {
      var got := set i | 0 <= i < |clients| :: (p, clients[i]);
      var want := set d | d in Dials(s.rows, p) :: (d.from, AddrAt(d.to));
      forall x | x in got ensures x in want {
        var i :| 0 <= i < |clients| && x == (p, clients[i]);
        assert who[i] in who && Dialer(p, who[i]) in Dials(s.rows, p);
      }
      forall d | d in Dials(s.rows, p) ensures (d.from, AddrAt(d.to)) in got {
        assert Registered(s, d.to) && d.to in who;
        var i :| 0 <= i < |who| && who[i] == d.to;
        assert (p, clients[i]) in got;
      }
    }
  }
}
