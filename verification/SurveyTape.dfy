/** What a survey does, said of the tape alone: where its rounds begin and end, and what the
    outcome has to do with the entries consumed (stream/river/surveyor.go:45-120). */
module SurveyTape {
  import opened Options
  import opened Wire
  import opened Survey

  /* ---------- how replies read ---------- */

  /** An OK credits its sender; an IDK is a refusal, filed one byte early (surveyor.go:80). */
  lemma ReadsReplies(id: u64)
    ensures Read(OK, Reply(OK, id)) == Credit(id)
    ensures Read(OK, Reply(UNKNOWN, id)) == Refusal(75 + 256 * (id % 0x100_0000_0000_0000), PutUint(id, 8))
  {
    OkCreditsSender(id);
    IdkEntry(id);
    assert Reply(UNKNOWN, id)[|UNKNOWN|..] == PutUint(id, 8);
  }

  /** Anything else: unreadable without either prefix, too short without eight bytes after rsp. */
  lemma ReadsOthers(rsp: Bytes, bs: Bytes)
    ensures Read(rsp, bs).Unreadable? <==> !HasPrefix(bs, rsp) && !HasPrefix(bs, UNKNOWN)
    ensures Read(rsp, bs).TooShort? <==> (HasPrefix(bs, rsp) || HasPrefix(bs, UNKNOWN)) && |bs| < |rsp| + 8
    ensures Read(rsp, bs).Credit? <==> HasPrefix(bs, rsp) && |bs| >= |rsp| + 8
  {
  }

  /* ---------- entries ---------- */

  /** A reply the survey goes on after. */
  predicate Useful(want: set<nat>, rsp: Bytes, m: Recv) {
    && m.Got?
    && match Read(rsp, m.bs)
       case Credit(id) => id in want
       case Refusal(_, _) => true
       case TooShort => false
       case Unreadable => false
  }

  /** The entry that makes a survey end with this error. */
  predicate Causes(want: set<nat>, rsp: Bytes, m: Recv, out: Outcome) {
    match out
    case RecvError => m == RecvFailed
    case UnexpectedRespondent(id) => id !in want && Credits(rsp, m, id)
    case Panicked => m.Got? && Read(rsp, m.bs) == TooShort
    case UnknownReply(bs) => m == Got(bs) && Read(rsp, bs) == Unreadable
    case _ => false
  }

  /** Every entry is a useful reply, silence, or the cause of exactly one error. */
  lemma OneCause(want: set<nat>, rsp: Bytes, m: Recv, out: Outcome, out': Outcome)
    requires Causes(want, rsp, m, out)
    ensures !Useful(want, rsp, m) && m != NoReply
    ensures Causes(want, rsp, m, out') ==> out == out'
  {
  }

  /* ---------- rounds ---------- */

  function OwedAt(want: set<nat>, rsp: Bytes, tape: seq<Recv>, a: nat): nat
    requires a <= |tape|
  {
    var k := Owed(want, Tallied(rsp, tape, a));
    if k < 0 then 0 else k
  }

  ghost predicate AllUseful(want: set<nat>, rsp: Bytes, tape: seq<Recv>, a: nat, b: int)
    requires b <= |tape|
  {
    forall i :: a <= i < b ==> Useful(want, rsp, tape[i])
  }

  /** Up to k receives from a end at b: all but the last entry are useful, and the last is not,
      unless there are k of them or the tape is at its end. */
  ghost predicate Stretch(want: set<nat>, rsp: Bytes, tape: seq<Recv>, a: nat, b: nat, k: nat) {
    && a <= b <= |tape| && b - a <= k && AllUseful(want, rsp, tape, a, b - 1)
    && (b - a == k || b == |tape| || (a < b && !Useful(want, rsp, tape[b - 1])))
  }

  /** A round that begins at a ends at b: it receives what is owed. */
  ghost predicate RoundRuns(want: set<nat>, rsp: Bytes, tape: seq<Recv>, a: nat, b: nat) {
    a <= |tape| && Stretch(want, rsp, tape, a, b, OwedAt(want, rsp, tape, a))
  }

  /** The round ended without an error. */
  ghost predicate Clean(want: set<nat>, rsp: Bytes, tape: seq<Recv>, a: nat, b: nat)
    requires b <= |tape|
  {
    a < b ==> Useful(want, rsp, tape[b - 1]) || tape[b - 1] == NoReply
  }

  /** The round ended without an error, and decided nothing. */
  ghost predicate Open(want: set<nat>, rsp: Bytes, tape: seq<Recv>, a: nat, b: nat)
    requires b <= |tape|
  {
    var t := Tallied(rsp, tape, b);
    Clean(want, rsp, tape, a, b) && |t.seen| != |want| && |t.seen| + |t.errs| != |want|
  }

  /** cuts are the places where rounds begin and end. */
  ghost predicate Rounded(want: set<nat>, rsp: Bytes, tape: seq<Recv>, cuts: seq<nat>) {
    && |cuts| > 0 && cuts[0] == 0
    && (forall k :: 0 <= k < |cuts| ==> cuts[k] <= |tape|)
    && (forall k :: 0 < k < |cuts| ==> RoundRuns(want, rsp, tape, cuts[k - 1], cuts[k]))
    && (forall k :: 0 < k < |cuts| - 1 ==> Open(want, rsp, tape, cuts[k - 1], cuts[k]))
  }

  /** The report a survey with these rounds gives. */
  ghost predicate Reports(want: set<nat>, rsp: Bytes, failAt: nat, tape: seq<Recv>, cuts: seq<nat>, r: Report)
    requires Rounded(want, rsp, tape, cuts)
  {
    var n, used := |cuts| - 1, cuts[|cuts| - 1];
    var t := Tallied(rsp, tape, used);
    && r.used == used
    && match r.out
       case SendError => n == failAt < 3 && r.sent == n + 1 && (n > 0 ==> Open(want, rsp, tape, cuts[n - 1], used))
       case Missing(ids) => n == r.sent == 3 <= failAt && Open(want, rsp, tape, cuts[2], used) && ids == want - t.seen
       case Answered =>
         0 < n == r.sent <= 3 && n <= failAt && Clean(want, rsp, tape, cuts[n - 1], used) && |t.seen| == |want|
       case Errors(errs) =>
         && 0 < n == r.sent <= 3 && n <= failAt && Clean(want, rsp, tape, cuts[n - 1], used)
         && |t.seen| != |want| && |t.seen| + |t.errs| == |want| && errs == t.errs
       case _ =>
         0 < n == r.sent <= 3 && n <= failAt && cuts[n - 1] < used && Causes(want, rsp, tape[used - 1], r.out)
  }

  /** Some rounds of the tape make this report. */
  ghost predicate Accounts(want: set<nat>, rsp: Bytes, failAt: nat, tape: seq<Recv>, r: Report) {
    exists cuts :: Rounded(want, rsp, tape, cuts) && Reports(want, rsp, failAt, tape, cuts, r)
  }

  /* ---------- the survey makes it ---------- */

  lemma AbsorbReads(want: set<nat>, rsp: Bytes, t: Tally, bs: Bytes)
    ensures var v := Absorb(want, rsp, t, bs);
            if Useful(want, rsp, Got(bs)) then v == Continue(Add(rsp, t, Got(bs)))
            else v.Stop? && Causes(want, rsp, Got(bs), v.out)
  {
  }

  /** What a round that began at a has come to. */
  ghost predicate VerdictOk(want: set<nat>, rsp: Bytes, tape: seq<Recv>, a: nat, q: QueryEnd) {
    && q.at <= |tape|
    && if q.verdict.Stop? then a < q.at && Causes(want, rsp, tape[q.at - 1], q.verdict.out)
       else q.verdict.tally == Tallied(rsp, tape, q.at) && Clean(want, rsp, tape, a, q.at)
  }

  lemma OneMore(want: set<nat>, rsp: Bytes, tape: seq<Recv>, a: nat, q: QueryEnd, k: nat)
    requires a < |tape| && Useful(want, rsp, tape[a])
    requires Stretch(want, rsp, tape, a + 1, q.at, k) && VerdictOk(want, rsp, tape, a + 1, q)
    ensures Stretch(want, rsp, tape, a, q.at, k + 1) && VerdictOk(want, rsp, tape, a, q)
  {
  }

  lemma QueryStops(want: set<nat>, rsp: Bytes, t: Tally, k: int, tape: seq<Recv>, at: nat)
    requires at <= |tape| && t == Tallied(rsp, tape, at)
    requires k <= 0 || at == |tape| || !Useful(want, rsp, tape[at])
    ensures var q := Query(want, rsp, t, k, tape, at);
            Stretch(want, rsp, tape, at, q.at, if k < 0 then 0 else k) && VerdictOk(want, rsp, tape, at, q)
  {
    if k > 0 && at < |tape| && tape[at].Got? { AbsorbReads(want, rsp, t, tape[at].bs); }
  }

  lemma {:induction false} QueryRuns(want: set<nat>, rsp: Bytes, t: Tally, k: int, tape: seq<Recv>, at: nat)
    requires at <= |tape| && t == Tallied(rsp, tape, at)
    ensures var q := Query(want, rsp, t, k, tape, at);
            Stretch(want, rsp, tape, at, q.at, if k < 0 then 0 else k) && VerdictOk(want, rsp, tape, at, q)
    decreases |tape| - at
  {
    if k <= 0 || at == |tape| || !Useful(want, rsp, tape[at]) {
      QueryStops(want, rsp, t, k, tape, at);
    } else {
      var t' := Add(rsp, t, tape[at]);
      var q := Query(want, rsp, t', k - 1, tape, at + 1);
      AbsorbReads(want, rsp, t, tape[at].bs);
      assert Query(want, rsp, t, k, tape, at) == q;
      QueryRuns(want, rsp, t', k - 1, tape, at + 1);
      OneMore(want, rsp, tape, at, q, k - 1);
    }
  }

  /** i rounds have been made, and the next is due. */
  ghost predicate Due(want: set<nat>, rsp: Bytes, failAt: nat, tape: seq<Recv>, cuts: seq<nat>) {
    && Rounded(want, rsp, tape, cuts) && |cuts| <= 4 && |cuts| - 1 <= failAt
    && (|cuts| > 1 ==> Open(want, rsp, tape, cuts[|cuts| - 2], cuts[|cuts| - 1]))
  }

  /** The report of the rounds from there on. */
  function Onward(want: set<nat>, rsp: Bytes, failAt: nat, tape: seq<Recv>, i: nat, at: nat): Report
    requires at <= |tape| && i <= 3
  {
    Rounds(want, rsp, Tallied(rsp, tape, at), i, failAt, tape, at)
  }

  lemma LastRound(want: set<nat>, rsp: Bytes, failAt: nat, tape: seq<Recv>, cuts: seq<nat>, q: QueryEnd)
    requires Due(want, rsp, failAt, tape, cuts) && |cuts| < 4 && |cuts| - 1 < failAt
    requires var at := cuts[|cuts| - 1];
             var t := Tallied(rsp, tape, at);
             && q == Query(want, rsp, t, Owed(want, t), tape, at)
             && (q.verdict.Stop? || !Open(want, rsp, tape, at, q.at))
    ensures Accounts(want, rsp, failAt, tape, Onward(want, rsp, failAt, tape, |cuts| - 1, cuts[|cuts| - 1]))
  {
    var i, cuts' := |cuts| - 1, cuts + [q.at];
    var r := Onward(want, rsp, failAt, tape, i, cuts[i]);
    NextRound(want, rsp, tape, cuts, q);
    if q.verdict.Stop? {
      assert r == Report(q.verdict.out, i + 1, q.at);
    } else {
      assert r.sent == i + 1 && r.used == q.at && (r.out.Answered? || r.out.Errors?);
    }
    assert cuts'[i] == cuts[i] && cuts'[i + 1] == q.at;
    assert Reports(want, rsp, failAt, tape, cuts', r);
  }

  lemma {:induction false} RoundsAccount(want: set<nat>, rsp: Bytes, failAt: nat, tape: seq<Recv>, cuts: seq<nat>)
    requires Due(want, rsp, failAt, tape, cuts)
    ensures Accounts(want, rsp, failAt, tape, Onward(want, rsp, failAt, tape, |cuts| - 1, cuts[|cuts| - 1]))
    decreases 4 - |cuts|
  {
    var i, at := |cuts| - 1, cuts[|cuts| - 1];
    var t := Tallied(rsp, tape, at);
    if i == 3 || i == failAt {
      assert Reports(want, rsp, failAt, tape, cuts, Onward(want, rsp, failAt, tape, i, at));
    } else {
      var q := Query(want, rsp, t, Owed(want, t), tape, at);
      NextRound(want, rsp, tape, cuts, q);
      if q.verdict.Stop? || !Open(want, rsp, tape, at, q.at) {
        LastRound(want, rsp, failAt, tape, cuts, q);
      } else {
        RoundsAccount(want, rsp, failAt, tape, cuts + [q.at]);
      }
    }
  }

  lemma NextRound(want: set<nat>, rsp: Bytes, tape: seq<Recv>, cuts: seq<nat>, q: QueryEnd)
    requires Rounded(want, rsp, tape, cuts)
    requires |cuts| > 1 ==> Open(want, rsp, tape, cuts[|cuts| - 2], cuts[|cuts| - 1])
    requires var at := cuts[|cuts| - 1];
             var t := Tallied(rsp, tape, at);
             q == Query(want, rsp, t, Owed(want, t), tape, at)
    ensures var at := cuts[|cuts| - 1];
            Rounded(want, rsp, tape, cuts + [q.at]) && VerdictOk(want, rsp, tape, at, q)
  {
    var at := cuts[|cuts| - 1];
    var t := Tallied(rsp, tape, at);
    QueryRuns(want, rsp, t, Owed(want, t), tape, at);
    assert RoundRuns(want, rsp, tape, at, q.at);
    RoundedMore(want, rsp, tape, cuts, q.at);
  }

  lemma RoundedMore(want: set<nat>, rsp: Bytes, tape: seq<Recv>, cuts: seq<nat>, b: nat)
    requires Rounded(want, rsp, tape, cuts) && RoundRuns(want, rsp, tape, cuts[|cuts| - 1], b)
    requires |cuts| > 1 ==> Open(want, rsp, tape, cuts[|cuts| - 2], cuts[|cuts| - 1])
    ensures Rounded(want, rsp, tape, cuts + [b])
  {
    var cuts', n := cuts + [b], |cuts|;
    forall k | 0 < k < n + 1
      ensures RoundRuns(want, rsp, tape, cuts'[k - 1], cuts'[k])
      ensures k < n ==> Open(want, rsp, tape, cuts'[k - 1], cuts'[k])
    {
      if k < n { assert cuts'[k - 1] == cuts[k - 1] && cuts'[k] == cuts[k]; }
    }
  }

  /* ---------- and only this one ---------- */

  lemma RoundUnique(want: set<nat>, rsp: Bytes, tape: seq<Recv>, a: nat, b: nat, b': nat)
    requires RoundRuns(want, rsp, tape, a, b) && RoundRuns(want, rsp, tape, a, b')
    ensures b == b'
  {
  }

  lemma {:induction false} CutsAgree(want: set<nat>, rsp: Bytes, tape: seq<Recv>, cuts: seq<nat>,
                                     cuts': seq<nat>, k: nat)
    requires Rounded(want, rsp, tape, cuts) && Rounded(want, rsp, tape, cuts') && k < |cuts| && k < |cuts'|
    ensures cuts[k] == cuts'[k]
  {
    if k > 0 {
      CutsAgree(want, rsp, tape, cuts, cuts', k - 1);
      RoundUnique(want, rsp, tape, cuts[k - 1], cuts[k], cuts'[k]);
    }
  }

  /** A report that comes of an answer, a refusal or an error ends a round that is not open. */
  lemma ReportCloses(want: set<nat>, rsp: Bytes, failAt: nat, tape: seq<Recv>, cuts: seq<nat>, r: Report)
    requires Rounded(want, rsp, tape, cuts) && Reports(want, rsp, failAt, tape, cuts, r)
    requires !r.out.SendError? && !r.out.Missing?
    ensures |cuts| > 1 && !Open(want, rsp, tape, cuts[|cuts| - 2], cuts[|cuts| - 1])
  {
    var used := cuts[|cuts| - 1];
    if Abort(r.out) { OneCause(want, rsp, tape[used - 1], r.out, r.out); }
  }

  /** A survey that has reported makes no further round. */
  lemma NoFurther(want: set<nat>, rsp: Bytes, failAt: nat, tape: seq<Recv>,
                  cuts: seq<nat>, r: Report, cuts': seq<nat>, r': Report)
    requires Rounded(want, rsp, tape, cuts) && Reports(want, rsp, failAt, tape, cuts, r)
    requires Rounded(want, rsp, tape, cuts') && Reports(want, rsp, failAt, tape, cuts', r')
    ensures |cuts'| <= |cuts|
  {
    var m := if |cuts| < |cuts'| then |cuts| - 1 else |cuts'| - 1;
    CutsAgree(want, rsp, tape, cuts, cuts', m);
    if m > 0 { CutsAgree(want, rsp, tape, cuts, cuts', m - 1); }
    if !r.out.SendError? && !r.out.Missing? { ReportCloses(want, rsp, failAt, tape, cuts, r); }
  }

  lemma ReportUnique(want: set<nat>, rsp: Bytes, failAt: nat, tape: seq<Recv>, r: Report, r': Report)
    requires Accounts(want, rsp, failAt, tape, r) && Accounts(want, rsp, failAt, tape, r')
    ensures r == r'
  {
    var cuts :| Rounded(want, rsp, tape, cuts) && Reports(want, rsp, failAt, tape, cuts, r);
    var cuts' :| Rounded(want, rsp, tape, cuts') && Reports(want, rsp, failAt, tape, cuts', r');
    NoFurther(want, rsp, failAt, tape, cuts, r, cuts', r');
    NoFurther(want, rsp, failAt, tape, cuts', r', cuts, r);
    forall k | 0 <= k < |cuts| ensures cuts[k] == cuts'[k] { CutsAgree(want, rsp, tape, cuts, cuts', k); }
    assert cuts == cuts';
    SameReport(want, rsp, failAt, tape, cuts, r, r');
  }

  lemma SameReport(want: set<nat>, rsp: Bytes, failAt: nat, tape: seq<Recv>, cuts: seq<nat>, r: Report, r': Report)
    requires Rounded(want, rsp, tape, cuts)
    requires Reports(want, rsp, failAt, tape, cuts, r) && Reports(want, rsp, failAt, tape, cuts, r')
    ensures r == r'
  {
    var n, used := |cuts| - 1, cuts[|cuts| - 1];
    if n > 0 && cuts[n - 1] < used {
      if Causes(want, rsp, tape[used - 1], r.out) { OneCause(want, rsp, tape[used - 1], r.out, r'.out); }
      if Causes(want, rsp, tape[used - 1], r'.out) { OneCause(want, rsp, tape[used - 1], r'.out, r.out); }
    }
  }

  /** Exactly: the report of a survey is the one that the rounds of the tape make. */
  lemma SurveyIff(want: set<nat>, rsp: Bytes, failAt: nat, tape: seq<Recv>, r: Report)
    ensures r == Run(want, rsp, failAt, tape) <==> Accounts(want, rsp, failAt, tape, r)
  {
    RoundsAccount(want, rsp, failAt, tape, [0]);
    if Accounts(want, rsp, failAt, tape, r) {
      ReportUnique(want, rsp, failAt, tape, r, Run(want, rsp, failAt, tape));
    }
  }

  lemma ReportOf(want: set<nat>, rsp: Bytes, failAt: nat, tape: seq<Recv>, cuts: seq<nat>, r: Report)
    requires Rounded(want, rsp, tape, cuts) && Reports(want, rsp, failAt, tape, cuts, r)
    ensures Run(want, rsp, failAt, tape) == r
  {
    SurveyIff(want, rsp, failAt, tape, r);
  }

  /* ---------- what it tells ---------- */

  /** How often Recv found nothing. */
  function Silences(tape: seq<Recv>, n: nat): nat
    requires n <= |tape|
  {
    if n == 0 then 0 else Silences(tape, n - 1) + if tape[n - 1].NoReply? then 1 else 0
  }

  lemma {:induction false} UsefulIsHeard(want: set<nat>, rsp: Bytes, tape: seq<Recv>, a: nat, b: nat)
    requires a <= b <= |tape| && AllUseful(want, rsp, tape, a, b - 1)
    ensures Silences(tape, b) <= Silences(tape, a) + 1
    ensures a < b && !tape[b - 1].NoReply? ==> Silences(tape, b) == Silences(tape, a)
  {
    if a < b - 1 {
      UsefulIsHeard(want, rsp, tape, a, b - 1);
    }
  }

  /** The entries before the k-th cut: useful or silence, with one silence a round at most. */
  lemma {:induction false} BeforeCut(want: set<nat>, rsp: Bytes, tape: seq<Recv>, cuts: seq<nat>, k: nat)
    requires Rounded(want, rsp, tape, cuts) && k < |cuts|
    requires k == |cuts| - 1 > 0 ==> Clean(want, rsp, tape, cuts[k - 1], cuts[k])
    ensures Silences(tape, cuts[k]) <= k
    ensures forall i :: 0 <= i < cuts[k] ==> Useful(want, rsp, tape[i]) || tape[i] == NoReply
  {
    if k > 0 {
      BeforeCut(want, rsp, tape, cuts, k - 1);
      UsefulIsHeard(want, rsp, tape, cuts[k - 1], cuts[k]);
    }
  }

  lemma CutsOf(want: set<nat>, rsp: Bytes, failAt: nat, tape: seq<Recv>) returns (cuts: seq<nat>)
    ensures Rounded(want, rsp, tape, cuts) && Reports(want, rsp, failAt, tape, cuts, Run(want, rsp, failAt, tape))
  {
    var r := Run(want, rsp, failAt, tape);
    SurveyIff(want, rsp, failAt, tape, r);
    cuts :| Rounded(want, rsp, tape, cuts) && Reports(want, rsp, failAt, tape, cuts, r);
  }

  /** An error other than that of a Send is caused by the last entry consumed; otherwise no entry
      consumed is a cause.  A SendError means that the last Send is the failing one. */
  lemma ErrorsHaveCauses(want: set<nat>, rsp: Bytes, failAt: nat, tape: seq<Recv>)
    ensures var r := Run(want, rsp, failAt, tape);
            && r.used <= |tape|
            && (if Abort(r.out) && !r.out.SendError?
                then r.used > 0 && Causes(want, rsp, tape[r.used - 1], r.out)
                else forall i :: 0 <= i < r.used ==> Useful(want, rsp, tape[i]) || tape[i] == NoReply)
            && (r.out.SendError? <==> r.sent == failAt + 1)
  {
    var cuts := CutsOf(want, rsp, failAt, tape);
    var r := Run(want, rsp, failAt, tape);
    if !Abort(r.out) || r.out.SendError? { BeforeCut(want, rsp, tape, cuts, |cuts| - 1); }
  }

  /** At most one silence is consumed for each Send: silence ends a round, and only a round. */
  lemma SilenceEndsRounds(want: set<nat>, rsp: Bytes, failAt: nat, tape: seq<Recv>)
    ensures var r := Run(want, rsp, failAt, tape);
            r.used <= |tape| && Silences(tape, r.used) <= r.sent
  {
    var cuts := CutsOf(want, rsp, failAt, tape);
    var r, n := Run(want, rsp, failAt, tape), |cuts| - 1;
    if n > 0 {
      BeforeCut(want, rsp, tape, cuts, n - 1);
      UsefulIsHeard(want, rsp, tape, cuts[n - 1], cuts[n]);
    }
  }

  /** After a Missing, somebody has neither answered nor refused. */
  lemma MissingIsUnheard(want: set<nat>, rsp: Bytes, failAt: nat, tape: seq<Recv>)
    ensures var r := Run(want, rsp, failAt, tape);
            && r.used <= |tape|
            && (r.out.Missing? ==> var t := Tallied(rsp, tape, r.used); |t.seen| + |t.errs| < |want|)
  {
    var cuts := CutsOf(want, rsp, failAt, tape);
    CutsSolvent(want, rsp, tape, cuts, |cuts| - 1);
  }

  /** No round overdraws what is owed. */
  lemma {:induction false} CutsSolvent(want: set<nat>, rsp: Bytes, tape: seq<Recv>, cuts: seq<nat>, k: nat)
    requires Rounded(want, rsp, tape, cuts) && k < |cuts|
    ensures Owed(want, Tallied(rsp, tape, cuts[k])) >= 0
  {
    if k > 0 {
      CutsSolvent(want, rsp, tape, cuts, k - 1);
      OwedFalls(want, rsp, tape, cuts[k - 1], cuts[k]);
    }
  }

  lemma {:induction false} OwedFalls(want: set<nat>, rsp: Bytes, tape: seq<Recv>, a: nat, b: nat)
    requires a <= b <= |tape|
    ensures Owed(want, Tallied(rsp, tape, b)) >= Owed(want, Tallied(rsp, tape, a)) - (b - a)
  {
    if a < b {
      OwedFalls(want, rsp, tape, a, b - 1);
      OwedStep(want, rsp, Tallied(rsp, tape, b - 1), tape[b - 1]);
    }
  }

  lemma OwedStep(want: set<nat>, rsp: Bytes, t: Tally, m: Recv)
    ensures Owed(want, Add(rsp, t, m)) >= Owed(want, t) - 1
  {
    if m.Got? && Read(rsp, m.bs).Refusal? {
      var id, what := Read(rsp, m.bs).id, Read(rsp, m.bs).what;
      assert t.errs[id := what].Keys == t.errs.Keys + {id};
    }
  }

  /* ---------- answers after a timeout ---------- */

  /** The first x of order answer, then nothing comes, then the others answer. */
  ghost predicate AnswersLate(rsp: Bytes, order: seq<nat>, x: nat, tape: seq<Recv>) {
    && x < |order| < |tape| && tape[x] == NoReply
    && forall i :: 0 <= i < |order| ==> Credits(rsp, tape[if i < x then i else i + 1], order[i])
  }

  function Firsts(order: seq<nat>, n: nat): set<nat>
    requires n <= |order|
  {
    if n == 0 then {} else Firsts(order, n - 1) + {order[n - 1]}
  }

  lemma {:induction false} FirstsCount(order: seq<nat>, n: nat)
    requires n <= |order| && forall i, j :: 0 <= i < j < |order| ==> order[i] != order[j]
    ensures |Firsts(order, n)| == n
    ensures forall i :: n <= i < |order| ==> order[i] !in Firsts(order, n)
  {
    if n > 0 {
      FirstsCount(order, n - 1);
    }
  }

  lemma {:induction false} HeardSoFar(rsp: Bytes, order: seq<nat>, x: nat, tape: seq<Recv>, n: nat)
    requires AnswersLate(rsp, order, x, tape) && n <= |order| + 1
    ensures Tallied(rsp, tape, n) == Tally(Firsts(order, if n <= x then n else n - 1), map[])
  {
    if n > 0 {
      HeardSoFar(rsp, order, x, tape, n - 1);
      if n - 1 != x {
        var i := if n - 1 < x then n - 1 else n - 2;
        assert Credits(rsp, tape[n - 1], order[i]);
      }
    }
  }

  lemma LateUseful(want: set<nat>, rsp: Bytes, order: seq<nat>, x: nat, tape: seq<Recv>)
    requires |order| == |want| && AnswersLate(rsp, order, x, tape)
    requires forall i :: 0 <= i < |order| ==> order[i] in want
    ensures AllUseful(want, rsp, tape, 0, x) && AllUseful(want, rsp, tape, x + 1, |want| + 1)
  {
    forall i | 0 <= i < |want| + 1 && i != x ensures Useful(want, rsp, tape[i]) {
      var j := if i < x then i else i - 1;
      assert Credits(rsp, tape[if j < x then j else j + 1], order[j]);
    }
  }

  lemma LateTally(rsp: Bytes, order: seq<nat>, x: nat, tape: seq<Recv>, n: nat)
    requires AnswersLate(rsp, order, x, tape) && n <= |order| + 1
    requires forall i, j :: 0 <= i < j < |order| ==> order[i] != order[j]
    ensures var t := Tallied(rsp, tape, n); |t.seen| == (if n <= x then n else n - 1) && |t.errs| == 0
  {
    HeardSoFar(rsp, order, x, tape, n);
    FirstsCount(order, if n <= x then n else n - 1);
  }

  lemma LateRounds(want: set<nat>, rsp: Bytes, order: seq<nat>, x: nat, tape: seq<Recv>)
    requires |order| == |want| && AnswersLate(rsp, order, x, tape)
    requires forall i, j :: 0 <= i < j < |order| ==> order[i] != order[j]
    requires forall i :: 0 <= i < |order| ==> order[i] in want
    ensures RoundRuns(want, rsp, tape, 0, x + 1) && Open(want, rsp, tape, 0, x + 1)
    ensures RoundRuns(want, rsp, tape, x + 1, |want| + 1) && Clean(want, rsp, tape, x + 1, |want| + 1)
    ensures |Tallied(rsp, tape, |want| + 1).seen| == |want|
  {
    LateUseful(want, rsp, order, x, tape);
    LateTally(rsp, order, x, tape, x + 1);
    LateTally(rsp, order, x, tape, |want| + 1);
  }

  lemma TwoRounds(want: set<nat>, rsp: Bytes, failAt: nat, tape: seq<Recv>, b: nat, c: nat)
    requires failAt >= 2 && RoundRuns(want, rsp, tape, 0, b) && Open(want, rsp, tape, 0, b)
    requires RoundRuns(want, rsp, tape, b, c) && Clean(want, rsp, tape, b, c)
    requires |Tallied(rsp, tape, c).seen| == |want|
    ensures Run(want, rsp, failAt, tape) == Report(Answered, 2, c)
  {
    RoundedMore(want, rsp, tape, [0], b);
    RoundedMore(want, rsp, tape, [0] + [b], c);
    ReportOf(want, rsp, failAt, tape, [0] + [b] + [c], Report(Answered, 2, c));
  }

  /** When a timeout splits the answers of the expected ids, the second Send succeeds. */
  lemma LateAnswersSucceed(want: set<nat>, rsp: Bytes, failAt: nat, order: seq<nat>, x: nat, tape: seq<Recv>)
    requires failAt >= 2 && |order| == |want| && AnswersLate(rsp, order, x, tape)
    requires forall i, j :: 0 <= i < j < |order| ==> order[i] != order[j]
    requires forall i :: 0 <= i < |order| ==> order[i] in want
    ensures Run(want, rsp, failAt, tape) == Report(Answered, 2, |want| + 1)
  {
    LateRounds(want, rsp, order, x, tape);
    TwoRounds(want, rsp, failAt, tape, x + 1, |want| + 1);
  }
}
