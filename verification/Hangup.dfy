/** The hangup protocol: registered responders, surveyors and the messages between them
    (stream/river/responder.go, surveyor.go, rest/ws/hangup.go, rest/notif.go, rest/stream.go).

    A message once sent stays available: never delivering it is loss, delivering it late is
    reordering, delivering it again is duplication.  A responder closes its signal before it
    replies, in two separate steps, so every interleaving between them is a run.

    Registrations of a bucket are told apart by their count n; what is stored and sent is
    Num(n), which wraps.  A number still in use cannot be taken again: its address is. */
module Hangup {
  import opened Wire
  import Survey

  /** Names of nested buckets below the river bucket. */
  type Path = seq<string>

  datatype Key = Key(path: Path, n: nat)

  /** Where AwaitHangup stands (responder.go:19-44 with hangup.go:38-41). */
  datatype Phase =
    | Waiting                                 // in Recv
    | Heard(survey: Bytes, surveyor: nat)     // Recv returned, Send not yet called
    | Replying(reply: Bytes, surveyor: nat)   // signal closed, reply not yet sent
    | Done                                    // AwaitHangup returned

  /** A connection: its responder, its signal, and whether its handler has finished serving. */
  datatype Conn = Conn(phase: Phase, closed: bool, ended: bool)

  datatype Ask = Ask(to: Key, surveyor: nat, bs: Bytes)
  datatype Rep = Rep(surveyor: nat, bs: Bytes)

  /** A surveyor: where it surveys, the registrations it found, and all that its Recv has returned. */
  datatype Surveyor = Surveyor(path: Path, base: set<nat>, log: seq<Survey.Recv>)

  function Nums(ns: set<nat>): set<nat> {
    set n | n in ns :: Num(n)
  }

  /** Expect() */
  function Want(v: Surveyor): set<nat> {
    Nums(v.base)
  }

  datatype State = State(
    counters: map<Path, nat>,      // registrations so far, by bucket
    rows: map<Path, set<nat>>,     // the registrations that have a row
    conns: map<Key, Conn>,
    asks: set<Ask>,
    reps: set<Rep>,
    surveyors: seq<Surveyor>)

  const INIT := State(map[], map[], map[], {}, {}, [])

  datatype Step =
    | Register(path: Path)                 // NewResponder commits
    | Prepare(path: Path)                  // NewSurvey reads the registry
    | Send(j: nat, bs: Bytes)              // surveyor j broadcasts
    | Hear(ask: Ask)                       // a responder's Recv returns
    | CloseSignal(k: Key)                  // close(h.signal)
    | Answer(k: Key)                       // h.Responder.Send(msg) succeeds
    | AnswerFails(k: Key)
    | RecvError(k: Key)                    // the responder's socket was closed
    | Deliver(rep: Rep)                    // a surveyor's Recv returns a reply
    | Silence(j: nat)                      // a surveyor's Recv times out
    | Broken(j: nat)                       // a surveyor's Recv fails
    | End(k: Key)                          // the connection's handler stops serving
    | Cleanup(k: Key)                      // DeleteResp commits, after <-errCh

  predicate Enabled(s: State, step: Step) {
    match step
    case Register(p) => forall n :: n in Rows(s, p) ==> Num(n) != Num(Counter(s, p) + 1)
    case Prepare(p) => p in s.rows
    case Send(j, bs) => j < |s.surveyors|
    case Hear(a) => a in s.asks && a.to in s.conns && s.conns[a.to].phase.Waiting?
    case CloseSignal(k) => k in s.conns && s.conns[k].phase.Heard?
    case Answer(k) => k in s.conns && s.conns[k].phase.Replying?
    case AnswerFails(k) => k in s.conns && s.conns[k].phase.Replying?
    case RecvError(k) => k in s.conns && s.conns[k].phase.Waiting?
    case Deliver(r) => r in s.reps && r.surveyor < |s.surveyors|
    case Silence(j) => j < |s.surveyors|
    case Broken(j) => j < |s.surveyors|
    case End(k) => k in s.conns
    case Cleanup(k) => k in s.conns && s.conns[k].ended && s.conns[k].phase.Done? && k.path in s.rows
  }

  function Counter(s: State, p: Path): nat {
    if p in s.counters then s.counters[p] else 0
  }

  function Rows(s: State, p: Path): set<nat> {
    if p in s.rows then s.rows[p] else {}
  }

  /** Wait's choice of reply (responder.go:25-34, 40-44). */
  function Chosen(survey: Bytes, id: u64): Bytes {
    Reply(if survey == HUP then OK else UNKNOWN, id)
  }

  function Logged(s: State, j: nat, m: Survey.Recv): State
    requires j < |s.surveyors|
  {
    var v := s.surveyors[j];
    s.(surveyors := s.surveyors[j := v.(log := v.log + [m])])
  }

  function SetConn(s: State, k: Key, c: Conn): State {
    s.(conns := s.conns[k := c])
  }

  function Apply(s: State, step: Step): State
    requires Enabled(s, step)
  {
    match step
    case Register(p) =>
      var n := Counter(s, p) + 1;
      s.(counters := s.counters[p := n],
         rows := s.rows[p := Rows(s, p) + {n}],
         conns := s.conns[Key(p, n) := Conn(Waiting, false, false)])
    case Prepare(p) => s.(surveyors := s.surveyors + [Surveyor(p, s.rows[p], [])])
    case Send(j, bs) =>
      var v := s.surveyors[j];
      s.(asks := s.asks + set k | k in s.conns && k.path == v.path && Num(k.n) in Want(v) :: Ask(k, j, bs))
    case Hear(a) => SetConn(s, a.to, s.conns[a.to].(phase := Heard(a.bs, a.surveyor)))
    case CloseSignal(k) =>
      var c := s.conns[k];
      SetConn(s, k, Conn(Replying(Chosen(c.phase.survey, Num(k.n)), c.phase.surveyor), true, c.ended))
    case Answer(k) =>
      var c := s.conns[k];
      SetConn(s, k, c.(phase := Done)).(reps := s.reps + {Rep(c.phase.surveyor, c.phase.reply)})
    case AnswerFails(k) => SetConn(s, k, s.conns[k].(phase := Done))
    case RecvError(k) => SetConn(s, k, s.conns[k].(phase := Done))
    case Deliver(r) => Logged(s, r.surveyor, Survey.Got(r.bs))
    case Silence(j) => Logged(s, j, Survey.NoReply)
    case Broken(j) => Logged(s, j, Survey.RecvFailed)
    case End(k) => SetConn(s, k, s.conns[k].(ended := true))
    case Cleanup(k) => s.(rows := s.rows[k.path := s.rows[k.path] - {k.n}])
  }

  ghost predicate Next(s: State, s': State) {
    exists step :: Enabled(s, step) && s' == Apply(s, step)
  }

  /** The states of a run, from an empty registry. */
  ghost predicate Trace(ts: seq<State>) {
    && |ts| > 0 && ts[0] == INIT
    && forall i :: 0 <= i < |ts| - 1 ==> Next(ts[i], ts[i + 1])
  }

  /* ---------- what every step keeps ---------- */

  /** bs is a reply of connection n of this bucket, whose signal is closed. */
  predicate SentBy(conns: map<Key, Conn>, p: Path, bs: Bytes, n: nat) {
    && Key(p, n) in conns && conns[Key(p, n)].closed
    && (bs == Reply(OK, Num(n)) || bs == Reply(UNKNOWN, Num(n)))
  }

  /** n is not an earlier registration under a number of base. */
  predicate NotBefore(base: set<nat>, n: nat) {
    forall m :: m in base && Num(m) == Num(n) ==> m <= n
  }

  /** bs was sent by a connection that the surveyor can have meant. */
  ghost predicate Traceable(conns: map<Key, Conn>, v: Surveyor, bs: Bytes) {
    exists n :: SentBy(conns, v.path, bs, n) && NotBefore(v.base, n)
  }

  /** A surveyor index and the bucket it surveys. */
  predicate Surveys(s: State, j: nat, p: Path) {
    j < |s.surveyors| && s.surveyors[j].path == p
  }

  predicate ConnOk(s: State, k: Key) {
    k in s.conns ==>
      match s.conns[k].phase
      case Waiting => !s.conns[k].closed
      case Heard(_, j) => !s.conns[k].closed && Surveys(s, j, k.path)
      case Replying(bs, j) => SentBy(s.conns, k.path, bs, k.n) && Surveys(s, j, k.path)
      case Done => true
  }

  predicate RowOk(s: State, k: Key) {
    && (k in s.conns ==> k.n <= Counter(s, k.path))
    && (k in s.conns && k.n !in Rows(s, k.path) ==> s.conns[k].ended && s.conns[k].phase.Done?)
    && (k.n in Rows(s, k.path) ==> k in s.conns)
  }

  /** A number was taken again only after its former holder had ended and its row was gone. */
  predicate Succeeded(s: State, k: Key, m: nat) {
    k in s.conns && Key(k.path, m) in s.conns && k.n < m && Num(k.n) == Num(m) ==>
      k.n !in Rows(s, k.path)
  }

  ghost predicate BaseOk(s: State, j: nat) {
    j < |s.surveyors| ==> forall m :: m in s.surveyors[j].base ==> Key(s.surveyors[j].path, m) in s.conns
  }

  ghost predicate AsksOk(s: State) {
    forall a :: a in s.asks ==> Surveys(s, a.surveyor, a.to.path)
  }

  ghost predicate RepsOk(s: State) {
    forall r :: r in s.reps ==> r.surveyor < |s.surveyors| && Traceable(s.conns, s.surveyors[r.surveyor], r.bs)
  }

  ghost predicate LogsOk(s: State) {
    forall j, i :: 0 <= j < |s.surveyors| && 0 <= i < |s.surveyors[j].log| && s.surveyors[j].log[i].Got? ==>
      Traceable(s.conns, s.surveyors[j], s.surveyors[j].log[i].bs)
  }

  ghost predicate Inv(s: State) {
    && (forall k :: ConnOk(s, k))
    && (forall k :: RowOk(s, k))
    && (forall k, m :: Succeeded(s, k, m))
    && (forall j :: BaseOk(s, j))
    && AsksOk(s) && RepsOk(s) && LogsOk(s)
  }

  /** Signals stay closed, finished handlers stay finished, connections stay known. */
  ghost predicate Grows(c: map<Key, Conn>, c': map<Key, Conn>) {
    forall k :: k in c ==> k in c' && (c[k].closed ==> c'[k].closed) && (c[k].ended ==> c'[k].ended)
  }

  lemma TraceableGrows(c: map<Key, Conn>, c': map<Key, Conn>, v: Surveyor, v': Surveyor, bs: Bytes)
    requires Grows(c, c') && Traceable(c, v, bs) && v'.path == v.path && v'.base == v.base
    ensures Traceable(c', v', bs)
  {
    var n :| SentBy(c, v.path, bs, n) && NotBefore(v.base, n);
    assert SentBy(c', v'.path, bs, n);
  }

  /** What a surveyor is after does not change. */
  ghost predicate Kept(s: State, s': State) {
    && |s.surveyors| <= |s'.surveyors|
    && forall j :: 0 <= j < |s.surveyors| ==>
         s'.surveyors[j].path == s.surveyors[j].path && s'.surveyors[j].base == s.surveyors[j].base
  }

  /** A row that is gone does not come back. */
  ghost predicate Shrinks(s: State, s': State) {
    forall k :: k in s.conns && k.n !in Rows(s, k.path) ==> k.n !in Rows(s', k.path)
  }

  lemma StepGrows(s: State, step: Step)
    requires Inv(s) && Enabled(s, step)
    ensures Grows(s.conns, Apply(s, step).conns) && Kept(s, Apply(s, step)) && Shrinks(s, Apply(s, step))
  {
    if step.Register? {
      var k := Key(step.path, Counter(s, step.path) + 1);
      assert RowOk(s, k);
    }
  }

  lemma StepConns(s: State, step: Step, k: Key)
    requires Inv(s) && Enabled(s, step)
    ensures ConnOk(Apply(s, step), k)
  {
    StepGrows(s, step);
    assert ConnOk(s, k) && RowOk(s, k);
    if step.Hear? {
      assert Surveys(s, step.ask.surveyor, step.ask.to.path);
    }
  }

  lemma StepRows(s: State, step: Step, k: Key)
    requires Inv(s) && Enabled(s, step)
    ensures RowOk(Apply(s, step), k)
  {
    assert RowOk(s, k);
  }

  lemma StepSucceeded(s: State, step: Step, k: Key, m: nat)
    requires Inv(s) && Enabled(s, step)
    ensures Succeeded(Apply(s, step), k, m)
  {
    assert Succeeded(s, k, m) && RowOk(s, k) && RowOk(s, Key(k.path, m));
    StepGrows(s, step);
  }

  lemma StepBase(s: State, step: Step, j: nat)
    requires Inv(s) && Enabled(s, step)
    ensures BaseOk(Apply(s, step), j)
  {
    StepGrows(s, step);
    assert BaseOk(s, j);
    if step.Prepare? {
      assert forall m :: m in s.rows[step.path] ==> RowOk(s, Key(step.path, m));
    }
  }

  /** Whoever replies to surveyor j is no predecessor of what j is after. */
  lemma RepliesInTime(s: State, k: Key, j: nat)
    requires Inv(s) && k in s.conns && !s.conns[k].phase.Done? && Surveys(s, j, k.path)
    ensures NotBefore(s.surveyors[j].base, k.n)
  {
    assert BaseOk(s, j) && RowOk(s, k);
    forall m | m in s.surveyors[j].base && Num(m) == Num(k.n) ensures m <= k.n {
      assert Succeeded(s, k, m);
    }
  }

  lemma StepMessages(s: State, step: Step)
    requires Inv(s) && Enabled(s, step)
    ensures AsksOk(Apply(s, step)) && RepsOk(Apply(s, step))
  {
    var s' := Apply(s, step);
    StepGrows(s, step);
    forall r | r in s'.reps
      ensures r.surveyor < |s'.surveyors| && Traceable(s'.conns, s'.surveyors[r.surveyor], r.bs)
    {
      if r in s.reps {
        TraceableGrows(s.conns, s'.conns, s.surveyors[r.surveyor], s'.surveyors[r.surveyor], r.bs);
      } else {
        assert ConnOk(s, step.k);
        RepliesInTime(s, step.k, r.surveyor);
        assert SentBy(s'.conns, step.k.path, r.bs, step.k.n);
      }
    }
  }

  lemma StepLogs(s: State, step: Step)
    requires Inv(s) && Enabled(s, step)
    ensures LogsOk(Apply(s, step))
  {
    var s' := Apply(s, step);
    StepGrows(s, step);
    forall j, i | 0 <= j < |s'.surveyors| && 0 <= i < |s'.surveyors[j].log| && s'.surveyors[j].log[i].Got?
      ensures Traceable(s'.conns, s'.surveyors[j], s'.surveyors[j].log[i].bs)
    {
      assert j < |s.surveyors|;
      var bs := s'.surveyors[j].log[i].bs;
      if i < |s.surveyors[j].log| {
        assert s'.surveyors[j].log[i] == s.surveyors[j].log[i];
      } else {
        assert step == Deliver(Rep(j, bs));
      }
      TraceableGrows(s.conns, s'.conns, s.surveyors[j], s'.surveyors[j], bs);
    }
  }

  lemma StepKeepsInv(s: State, step: Step)
    requires Inv(s) && Enabled(s, step)
    ensures Inv(Apply(s, step))
  {
    var s' := Apply(s, step);
    forall k ensures ConnOk(s', k) { StepConns(s, step, k); }
    forall k ensures RowOk(s', k) { StepRows(s, step, k); }
    forall k, m ensures Succeeded(s', k, m) { StepSucceeded(s, step, k, m); }
    forall j ensures BaseOk(s', j) { StepBase(s, step, j); }
    StepMessages(s, step);
    StepLogs(s, step);
  }

  /** Every state of every run satisfies the invariant. */
  lemma {:induction false} RunKeepsInv(ts: seq<State>, i: nat)
    requires Trace(ts) && i < |ts|
    ensures Inv(ts[i])
  {
    if i > 0 {
      RunKeepsInv(ts, i - 1);
      assert Next(ts[i - 1], ts[i - 1 + 1]);
      var step :| Enabled(ts[i - 1], step) && ts[i] == Apply(ts[i - 1], step);
      StepKeepsInv(ts[i - 1], step);
    }
  }

  /** HangupSender.Send is reached with an open signal, and never again: the signal is closed
      at most once per AwaitHangup. */
  lemma ClosesOnce(ts: seq<State>, i: nat, i': nat, k: Key)
    requires Trace(ts) && i < i' < |ts|
    requires Enabled(ts[i], CloseSignal(k)) && ts[i + 1] == Apply(ts[i], CloseSignal(k))
    ensures !ts[i].conns[k].closed && k in ts[i'].conns && ts[i'].conns[k].closed
    ensures !Enabled(ts[i'], CloseSignal(k))
  {
    RunKeepsInv(ts, i);
    RunKeepsInv(ts, i');
    RunGrows(ts, i + 1, i');
    assert ConnOk(ts[i], k) && ConnOk(ts[i'], k);
  }

  /** A new responder's number is held by nobody: whoever had it before has ended, its row is
      gone, and 2^64 registrations or more lie between. */
  lemma NumbersAreFresh(ts: seq<State>, i: nat, p: Path, m: nat)
    requires Trace(ts) && i < |ts| && Enabled(ts[i], Register(p))
    requires Key(p, m) in ts[i].conns && Num(m) == Num(Counter(ts[i], p) + 1)
    ensures m + U64 <= Counter(ts[i], p) + 1
    ensures m !in Rows(ts[i], p) && ts[i].conns[Key(p, m)].ended
  {
    RunKeepsInv(ts, i);
    assert RowOk(ts[i], Key(p, m));
    SequenceReuse(m, Counter(ts[i], p) + 1);
  }

  /** A traceable reply that credits id was sent by a connection with that number, after its
      signal closed. */
  lemma CreditIsClosed(conns: map<Key, Conn>, v: Surveyor, bs: Bytes, id: nat) returns (n: nat)
    requires Traceable(conns, v, bs) && Survey.Credits(OK, Survey.Got(bs), id)
    ensures Num(n) == id && Key(v.path, n) in conns && conns[Key(v.path, n)].closed && NotBefore(v.base, n)
  {
    n :| SentBy(conns, v.path, bs, n) && NotBefore(v.base, n);
    OkCreditsSender(Num(n));
    IdkEntry(Num(n));
  }

  /** A message on its way to surveyor j, or already received by it. */
  ghost predicate Exposed(s: State, j: nat, bs: Bytes) {
    && j < |s.surveyors|
    && (Rep(j, bs) in s.reps || Survey.Got(bs) in s.surveyors[j].log)
  }

  /** Hangup safety: in every run, an OK(id) in flight or received means that a connection with
      that number in the surveyed bucket, none older than the one surveyed, has its signal closed
      already. */
  lemma OkMeansClosed(ts: seq<State>, i: nat, j: nat, bs: Bytes, id: nat) returns (n: nat)
    requires Trace(ts) && i < |ts| && Exposed(ts[i], j, bs)
    requires Survey.Credits(OK, Survey.Got(bs), id)
    ensures Num(n) == id && NotBefore(ts[i].surveyors[j].base, n)
    ensures var k := Key(ts[i].surveyors[j].path, n); k in ts[i].conns && ts[i].conns[k].closed
  {
    RunKeepsInv(ts, i);
    n := CreditIsClosed(ts[i].conns, ts[i].surveyors[j], bs, id);
  }

  lemma {:induction false} RunGrows(ts: seq<State>, i: nat, i': nat)
    requires Trace(ts) && i <= i' < |ts|
    ensures Grows(ts[i].conns, ts[i'].conns) && Shrinks(ts[i], ts[i'])
  {
    if i < i' {
      RunGrows(ts, i, i' - 1);
      RunKeepsInv(ts, i' - 1);
      assert Next(ts[i' - 1], ts[i' - 1 + 1]);
      var step :| Enabled(ts[i' - 1], step) && ts[i'] == Apply(ts[i' - 1], step);
      StepGrows(ts[i' - 1], step);
    }
  }

  /** The survey of surveyor j, run on all it has received by state i. */
  function Verdict(s: State, j: nat, failAt: nat): Survey.Outcome
    requires j < |s.surveyors|
  {
    Survey.Run(Want(s.surveyors[j]), OK, failAt, s.surveyors[j].log).out
  }

  /** The connection is dead: its signal is closed, or its handler has ended and removed its row. */
  predicate Dead(s: State, k: Key) {
    k in s.conns && (s.conns[k].closed || (s.conns[k].ended && k.n !in Rows(s, k.path)))
  }

  /** An answered survey has a closed connection for each number it expected. */
  lemma AnsweredMeansClosed(ts: seq<State>, i: nat, j: nat, failAt: nat, id: nat) returns (m: nat)
    requires Trace(ts) && i < |ts| && j < |ts[i].surveyors|
    requires Verdict(ts[i], j, failAt).Answered? && id in Want(ts[i].surveyors[j])
    ensures Num(m) == id && NotBefore(ts[i].surveyors[j].base, m)
    ensures var k := Key(ts[i].surveyors[j].path, m); k in ts[i].conns && ts[i].conns[k].closed
  {
    var v := ts[i].surveyors[j];
    Survey.SurveyAccounting(Want(v), OK, failAt, v.log);
    var used := Survey.Run(Want(v), OK, failAt, v.log).used;
    Survey.CreditedMember(OK, v.log, used, id);
    var x :| 0 <= x < used && Survey.Credits(OK, v.log[x], id);
    assert Survey.Got(v.log[x].bs) == v.log[x] && v.log[x] in v.log;
    m := OkMeansClosed(ts, i, j, v.log[x].bs, id);
  }

  /** When MakeSurvey(HUP, OK) returns nil, every connection it was after is dead, then and ever
      after; and signalled, unless its number was taken 2^64 registrations later. */
  lemma NilMeansHungUp(ts: seq<State>, i: nat, i': nat, j: nat, failAt: nat, n: nat)
    requires Trace(ts) && i <= i' < |ts| && j < |ts[i].surveyors|
    requires Verdict(ts[i], j, failAt).Answered? && n in ts[i].surveyors[j].base
    ensures Dead(ts[i'], Key(ts[i].surveyors[j].path, n))
    ensures Counter(ts[i], ts[i].surveyors[j].path) < n + U64 ==> ts[i'].conns[Key(ts[i].surveyors[j].path, n)].closed
  {
    var p := ts[i].surveyors[j].path;
    var m := AnsweredMeansClosed(ts, i, j, failAt, Num(n));
    RunKeepsInv(ts, i);
    assert BaseOk(ts[i], j) && RowOk(ts[i], Key(p, n)) && RowOk(ts[i], Key(p, m)) && Succeeded(ts[i], Key(p, n), m);
    SequenceReuse(n, m);
    RunGrows(ts, i, i');
  }

  /** A row of state i that is gone at state v belongs to a connection that has ended. */
  lemma GoneMeansEnded(ts: seq<State>, i: nat, v: nat, p: Path, n: nat)
    requires Trace(ts) && i <= v < |ts| && n in Rows(ts[i], p) && n !in Rows(ts[v], p)
    ensures Dead(ts[v], Key(p, n)) && ts[v].conns[Key(p, n)].ended
  {
    RunKeepsInv(ts, i);
    RunKeepsInv(ts, v);
    assert RowOk(ts[i], Key(p, n)) && RowOk(ts[v], Key(p, n));
    RunGrows(ts, i, v);
  }
}
