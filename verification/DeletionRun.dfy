/** A run of the protocol in which a user is deleted: one connection answers the survey of its
    bucket, the other has ended and removed its row when its survey is found missing. */
module DeletionRun {
  import opened Wire
  import opened Hangup
  import opened Deletion
  import HangupRuns
  import Survey
  import SurveyTape

  const LIVE := Conn(Waiting, false, false)
  function Nothing(n: nat): seq<Survey.Recv> {
    seq(n, _ => Survey.NoReply)
  }

  const QUIET := Nothing(3)

  /** One connection under each of two paths. */
  function Two(p: Path, q: Path, c: Conn, d: Conn): map<Key, Conn> {
    map[Key(p, 1) := c, Key(q, 1) := d]
  }

  /** Both are registered. */
  function Registered(p: Path, q: Path): State {
    State(map[p := 1, q := 1], map[p := {1}, q := {1}], Two(p, q, LIVE, LIVE), {}, {}, [])
  }

  /** Both are surveyed, and the first has been sent a HUP. */
  function Asked(p: Path, q: Path): State {
    Registered(p, q).(asks := {Ask(Key(p, 1), 0, HUP)},
                      surveyors := [Surveyor(p, {1}, []), Surveyor(q, {1}, [])])
  }

  /** The first has answered, and its surveyor has heard it. */
  function Answered(p: Path, q: Path): State {
    Asked(p, q).(conns := Two(p, q, Conn(Done, true, false), LIVE), reps := {Rep(0, Reply(OK, 1))},
                 surveyors := [Surveyor(p, {1}, [Survey.Got(Reply(OK, 1))]), Surveyor(q, {1}, [])])
  }

  /** The second surveyor has heard nothing three times. */
  function Silent(p: Path, q: Path): State {
    Answered(p, q).(surveyors := [Answered(p, q).surveyors[0], Surveyor(q, {1}, QUIET)])
  }

  /** The second connection has ended and removed its row. */
  function Cleared(p: Path, q: Path): State {
    Silent(p, q).(conns := Two(p, q, Conn(Done, true, false), Conn(Done, false, true)),
                  rows := map[p := {1}, q := {}])
  }

  /** One more step. */
  lemma Grow(ts: seq<State>, step: Step, s: State) returns (ts': seq<State>)
    requires Trace(ts) && Enabled(ts[|ts| - 1], step) && s == Apply(ts[|ts| - 1], step)
    ensures Trace(ts') && ts' == ts + [s]
  {
    ts' := ts + [s];
    assert Next(ts[|ts| - 1], s);
    HangupRuns.TraceMore(ts, s);
  }

  lemma Register2(p: Path, q: Path) returns (ts: seq<State>)
    requires p != q
    ensures Trace(ts) && |ts| == 3 && ts[2] == Registered(p, q)
  {
    ts := [INIT];
    var s := State(map[p := 1], map[p := {1}], map[Key(p, 1) := LIVE], {}, {}, []);
    assert Rows(INIT, p) + {1} == {1} && Rows(s, q) + {1} == {1};
    ts := Grow(ts, Register(p), s);
    assert map[p := {1}][q := {1}] == map[p := {1}, q := {1}];
    assert map[p := 1][q := 1] == map[p := 1, q := 1];
    assert map[Key(p, 1) := LIVE][Key(q, 1) := LIVE] == Two(p, q, LIVE, LIVE);
    ts := Grow(ts, Register(q), Registered(p, q));
  }

  lemma AskFirst(p: Path, q: Path, ts0: seq<State>) returns (ts: seq<State>)
    requires p != q && Trace(ts0) && |ts0| == 3 && ts0[2] == Registered(p, q)
    ensures Trace(ts) && |ts| == 6 && ts0 <= ts && ts[5] == Asked(p, q)
  {
    var v, u := Surveyor(p, {1}, []), Surveyor(q, {1}, []);
    var s := Registered(p, q);
    ts := Grow(ts0, Prepare(p), s.(surveyors := [v]));
    ts := Grow(ts, Prepare(q), s.(surveyors := [v, u]));
    var s' := s.(surveyors := [v, u]);
    assert Num(1) == 1 && Want(v) == {1};
    assert (set k | k in s'.conns && k.path == p && Num(k.n) in Want(v) :: Ask(k, 0, HUP)) == {Ask(Key(p, 1), 0, HUP)};
    ts := Grow(ts, Send(0, HUP), Asked(p, q));
  }

  lemma SetFirst(p: Path, q: Path, c: Conn, c': Conn, d: Conn)
    requires p != q
    ensures Two(p, q, c, d)[Key(p, 1) := c'] == Two(p, q, c', d)
  {
  }

  lemma SetSecond(p: Path, q: Path, c: Conn, d: Conn, d': Conn)
    requires p != q
    ensures Two(p, q, c, d)[Key(q, 1) := d'] == Two(p, q, c, d')
  {
  }

  /** The first of two surveyors receives a reply. */
  lemma DeliverFirst(ts0: seq<State>, s: State, v: Surveyor, u: Surveyor, bs: Bytes, s': State) returns (ts: seq<State>)
    requires Trace(ts0) && ts0[|ts0| - 1] == s && s.surveyors == [v, u] && Rep(0, bs) in s.reps
    requires v.log == [] && s' == s.(surveyors := [v.(log := [Survey.Got(bs)]), u])
    ensures Trace(ts) && ts == ts0 + [s']
  {
    assert v.log + [Survey.Got(bs)] == [Survey.Got(bs)];
    ts := Grow(ts0, Deliver(Rep(0, bs)), s');
  }

  /** State s, with the second surveyor having heard nothing n times. */
  function Unheard(s: State, v: Surveyor, q: Path, n: nat): State {
    s.(surveyors := [v, Surveyor(q, {1}, Nothing(n))])
  }

  lemma {:induction false} SilenceSecond(ts0: seq<State>, s: State, v: Surveyor, q: Path, n: nat)
    returns (ts: seq<State>)
    requires Trace(ts0) && ts0[|ts0| - 1] == Unheard(s, v, q, 0)
    ensures Trace(ts) && |ts| == |ts0| + n && ts0 <= ts && ts[|ts| - 1] == Unheard(s, v, q, n)
  {
    ts := ts0;
    if n > 0 {
      ts := SilenceSecond(ts0, s, v, q, n - 1);
      assert Nothing(n - 1) + [Survey.NoReply] == Nothing(n);
      ts := Grow(ts, Silence(1), Unheard(s, v, q, n));
    }
  }

  lemma HearFirst(p: Path, q: Path, ts0: seq<State>) returns (ts: seq<State>)
    requires p != q && Trace(ts0) && |ts0| == 6 && ts0[5] == Asked(p, q)
    ensures Trace(ts) && |ts| == 9 && ts0 <= ts
    ensures ts[8] == Asked(p, q).(conns := Two(p, q, Conn(Done, true, false), LIVE), reps := {Rep(0, Reply(OK, 1))})
  {
    var k, s, rep := Key(p, 1), Asked(p, q), Rep(0, Reply(OK, 1));
    var c1, c2 := Conn(Heard(HUP, 0), false, false), Conn(Replying(Reply(OK, 1), 0), true, false);
    var c3 := Conn(Done, true, false);
    assert Num(1) == 1;
    SetFirst(p, q, LIVE, c1, LIVE);
    ts := Grow(ts0, Hear(Ask(k, 0, HUP)), s.(conns := Two(p, q, c1, LIVE)));
    SetFirst(p, q, c1, c2, LIVE);
    ts := Grow(ts, CloseSignal(k), s.(conns := Two(p, q, c2, LIVE)));
    SetFirst(p, q, c2, c3, LIVE);
    ts := Grow(ts, Answer(k), s.(conns := Two(p, q, c3, LIVE), reps := {rep}));
  }

  lemma AnswerFirst(p: Path, q: Path, ts0: seq<State>) returns (ts: seq<State>)
    requires p != q && Trace(ts0) && |ts0| == 6 && ts0[5] == Asked(p, q)
    ensures Trace(ts) && |ts| == 10 && ts0 <= ts && ts[9] == Answered(p, q)
  {
    ts := HearFirst(p, q, ts0);
    ts := DeliverFirst(ts, ts[8], Surveyor(p, {1}, []), Surveyor(q, {1}, []), Reply(OK, 1), Answered(p, q));
  }

  lemma MissSecond(p: Path, q: Path, ts0: seq<State>) returns (ts: seq<State>)
    requires Trace(ts0) && |ts0| == 10 && ts0[9] == Answered(p, q)
    ensures Trace(ts) && |ts| == 13 && ts0 <= ts && ts[12] == Silent(p, q)
  {
    var s := Answered(p, q);
    assert s.surveyors[1].log == Nothing(0);
    assert s == Unheard(s, s.surveyors[0], q, 0);
    ts := SilenceSecond(ts0, s, s.surveyors[0], q, 3);
  }

  lemma ClearSecond(p: Path, q: Path, ts0: seq<State>) returns (ts: seq<State>)
    requires p != q && Trace(ts0) && |ts0| == 13 && ts0[12] == Silent(p, q)
    ensures Trace(ts) && |ts| == 16 && ts0 <= ts && ts[15] == Cleared(p, q)
  {
    var k, s, c := Key(q, 1), Silent(p, q), Conn(Done, true, false);
    var d1, d2 := Conn(Waiting, false, true), Conn(Done, false, true);
    SetSecond(p, q, c, LIVE, d1);
    ts := Grow(ts0, End(k), s.(conns := Two(p, q, c, d1)));
    SetSecond(p, q, c, d1, d2);
    ts := Grow(ts, RecvError(k), s.(conns := Two(p, q, c, d2)));
    assert s.rows[q] - {1} == {} && s.rows[q := {}] == map[p := {1}, q := {}];
    ts := Grow(ts, Cleanup(k), Cleared(p, q));
  }

  lemma FirstAnswered(p: Path, q: Path)
    ensures Verdict(Answered(p, q), 0, 3) == Survey.Answered
  {
    OkCreditsSender(1);
    var v := Answered(p, q).surveyors[0];
    assert Num(1) == 1 && Want(v) == {1};
    Survey.AllAnswerSucceeds({1}, OK, 3, [1], v.log);
  }

  lemma QuietIsMissing()
    ensures Survey.Run({1}, OK, 3, QUIET).out == Survey.Missing({1})
  {
    var cuts, r := [0, 1, 2, 3], Survey.Report(Survey.Missing({1}), 3, 3);
    assert Survey.Tallied(OK, QUIET, 1) == Survey.EMPTY;
    assert Survey.Tallied(OK, QUIET, 2) == Survey.EMPTY;
    assert Survey.Tallied(OK, QUIET, 3) == Survey.EMPTY;
    assert {1} - Survey.EMPTY.seen == {1};
    SurveyTape.ReportOf({1}, OK, 3, QUIET, cuts, r);
  }

  lemma SecondMissing(p: Path, q: Path)
    ensures Verdict(Silent(p, q), 1, 3) == Survey.Missing({1})
  {
    assert Num(1) == 1 && Want(Silent(p, q).surveyors[1]) == {1};
    QuietIsMissing();
  }

  /** User "u" with one convo "c", hung up through both its buckets. */
  const ATTEMPT := Attempt(2, "u", ["c"], [], [0, 1], [9, 12], [3, 3],
                           [Result(0, Survey.Answered), Result(1, Survey.Missing({1}))], [15, 15])

  lemma Surveyed(p: Path, q: Path, ts: seq<State>)
    requires p == ["hangups", "c", "u"] && q == ["hangups", "responders", "u"]
    requires |ts| == 16 && ts[2] == Registered(p, q)
    ensures p != q && Buckets(ts, ATTEMPT) == [p, q]
  {
    var paths := Paths(ATTEMPT);
    assert p[1] != q[1];
    assert paths == [p, q];
    assert Connected(ts[2].rows, paths, 0) == [];
    assert Connected(ts[2].rows, paths, 1) == [p];
  }

  /** There is a run in which the final Update is reached, one connection signalled, and the other
      ended with its row gone. */
  lemma DeletionHappens() returns (ts: seq<State>)
    ensures |ts| == 16 && Reaches(ts, ATTEMPT, 15)
    ensures ts[15] == Cleared(["hangups", "c", "u"], ["hangups", "responders", "u"])
  {
    var p, q: Path := ["hangups", "c", "u"], ["hangups", "responders", "u"];
    assert p[1] != q[1];
    ts := Register2(p, q);
    ts := AskFirst(p, q, ts);
    ts := AnswerFirst(p, q, ts);
    ts := MissSecond(p, q, ts);
    ts := ClearSecond(p, q, ts);
    Surveyed(p, q, ts);
    FirstAnswered(p, q);
    SecondMissing(p, q);
    assert SurveyRan(ts, ATTEMPT, 15, 0, Survey.Answered);
    assert SurveyRan(ts, ATTEMPT, 15, 1, Survey.Missing({1}));
  }
}
