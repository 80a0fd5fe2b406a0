/** MakeSurvey (stream/river/surveyor.go): a survey is sent up to three times, and
    replies are tallied from a socket that may lose, reorder or invent them.

    What Recv returns is an arbitrary tape, so every statement below is about every
    behaviour of the socket.  A Recv past the end of the tape finds nothing. */
module Survey {
  import opened Options
  import opened Wire

  datatype Recv =
    | Got(bs: Bytes)
    | NoReply      // mangos.ErrProtoState: nothing was received in time
    | RecvFailed   // any other Recv error

  datatype Outcome =
    | Answered                                 // a nil error
    | SendError
    | RecvError
    | UnexpectedRespondent(id: nat)
    | UnknownReply(bs: Bytes)
    | Panicked                                 // a reply too short to hold an id
    | Errors(errs: map<nat, Bytes>)
    | Missing(ids: set<nat>)

  datatype Tally = Tally(seen: set<nat>, errs: map<nat, Bytes>)

  const EMPTY := Tally({}, map[])
  const ROUNDS := 3

  /** How a reply reads (surveyor.go:66-89).  Both ids are read at the offset of rsp,
      also the one after UNKNOWN. */
  datatype Reading = Credit(id: nat) | Refusal(id: nat, what: Bytes) | TooShort | Unreadable

  function Read(rsp: Bytes, bs: Bytes): Reading {
    if HasPrefix(bs, rsp) then
      match Uint64(bs[|rsp|..]) case None => TooShort case Some(id) => Credit(id)
    else if HasPrefix(bs, UNKNOWN) then
      if |bs| < |rsp| then TooShort
      else match Uint64(bs[|rsp|..]) case None => TooShort case Some(id) => Refusal(id, bs[|UNKNOWN|..])
    else Unreadable
  }

  datatype Verdict = Continue(tally: Tally) | Stop(out: Outcome)

  function Absorb(want: set<nat>, rsp: Bytes, t: Tally, bs: Bytes): Verdict {
    match Read(rsp, bs)
    case Credit(id) =>
      if id !in want then Stop(UnexpectedRespondent(id)) else Continue(t.(seen := t.seen + {id}))
    case Refusal(id, what) => Continue(t.(errs := t.errs[id := what]))
    case TooShort => Stop(Panicked)
    case Unreadable => Stop(UnknownReply(bs))
  }

  /** The outcomes that end a survey at once. */
  predicate Abort(out: Outcome) {
    !out.Answered? && !out.Missing? && !out.Errors?
  }

  datatype QueryEnd = QueryEnd(verdict: Verdict, at: nat)

  /** One round from position at of the tape: up to k receives, ended early when nothing comes. */
  function Query(want: set<nat>, rsp: Bytes, t: Tally, k: int, tape: seq<Recv>, at: nat): (q: QueryEnd)
    requires at <= |tape|
    ensures at <= q.at <= |tape| && q.at <= at + if k <= 0 then 0 else k
    ensures q.verdict.Stop? ==> Abort(q.verdict.out)
    decreases |tape| - at
  {
    if k <= 0 || at == |tape| then QueryEnd(Continue(t), at)
    else match tape[at]
      case NoReply => QueryEnd(Continue(t), at + 1)
      case RecvFailed => QueryEnd(Stop(RecvError), at + 1)
      case Got(bs) =>
        match Absorb(want, rsp, t, bs)
        case Stop(out) => QueryEnd(Stop(out), at + 1)
        case Continue(t') => Query(want, rsp, t', k - 1, tape, at + 1)
  }

  /** The outcome, the surveys sent and the receives consumed. */
  datatype Report = Report(out: Outcome, sent: nat, used: nat)

  /** The replies still owed (surveyor.go:46). */
  function Owed(want: set<nat>, t: Tally): int {
    |want| - |t.seen| - |t.errs|
  }

  /** Rounds i, i+1, ... of the survey; the send of round failAt fails. */
  function Rounds(want: set<nat>, rsp: Bytes, t: Tally, i: nat, failAt: nat, tape: seq<Recv>, at: nat): Report
    requires at <= |tape| && i <= ROUNDS
    decreases ROUNDS - i
  {
    if i == ROUNDS then Report(Missing(want - t.seen), ROUNDS, at)
    else if i == failAt then Report(SendError, i + 1, at)
    else
      var q := Query(want, rsp, t, Owed(want, t), tape, at);
      match q.verdict
      case Stop(out) => Report(out, i + 1, q.at)
      case Continue(t') =>
        if |t'.seen| == |want| then Report(Answered, i + 1, q.at)
        else if |t'.seen| + |t'.errs| == |want| then Report(Errors(t'.errs), i + 1, q.at)
        else Rounds(want, rsp, t', i + 1, failAt, tape, q.at)
  }

  /** The whole survey. */
  function Run(want: set<nat>, rsp: Bytes, failAt: nat, tape: seq<Recv>): Report {
    Rounds(want, rsp, EMPTY, 0, failAt, tape, 0)
  }

  /** The inner loop (surveyor.go:55-90): tally up to toRecv replies from position start. */
  method Receive(want: set<nat>, rsp: Bytes, t: Tally, toRecv: int, tape: seq<Recv>, start: nat) returns (q: QueryEnd)
    requires start <= |tape|
    ensures q == Query(want, rsp, t, toRecv, tape, start)
  {
    var seen, errs, at := t.seen, t.errs, start;
    for j := 0 to if toRecv < 0 then 0 else toRecv
      invariant start <= at <= |tape|
      invariant Query(want, rsp, t, toRecv, tape, start) == Query(want, rsp, Tally(seen, errs), toRecv - j, tape, at)
    {
      if at == |tape| {
        break;  // a timeout
      }
      var m := tape[at];
      at := at + 1;
      match m
      case NoReply => return QueryEnd(Continue(Tally(seen, errs)), at);
      case RecvFailed => return QueryEnd(Stop(RecvError), at);
      case Got(bs) =>
        match Read(rsp, bs)
        case Credit(id) =>
          if id !in want {
            return QueryEnd(Stop(UnexpectedRespondent(id)), at);
          }
          seen := seen + {id};
        case Refusal(id, what) => errs := errs[id := what];
        case TooShort => return QueryEnd(Stop(Panicked), at);
        case Unreadable => return QueryEnd(Stop(UnknownReply(bs)), at);
    }
    q := QueryEnd(Continue(Tally(seen, errs)), at);
  }

  /** One round (surveyor.go:46-110): a report, or the tally and the position to go on with. */
  method Round(want: set<nat>, rsp: Bytes, t: Tally, i: nat, failAt: nat, tape: seq<Recv>, at: nat)
    returns (r: Option<Report>, t': Tally, at': nat)
    requires at <= |tape| && i < ROUNDS
    ensures at' <= |tape|
    ensures Rounds(want, rsp, t, i, failAt, tape, at)
         == if r.Some? then r.value else Rounds(want, rsp, t', i + 1, failAt, tape, at')
  {
    t', at' := t, at;
    var toRecv := |want| - |t.seen| - |t.errs|;
    if i == failAt {
      return Some(Report(SendError, i + 1, at)), t', at';
    }
    var q := Receive(want, rsp, t, toRecv, tape, at);
    at' := q.at;
    if q.verdict.Stop? {
      return Some(Report(q.verdict.out, i + 1, at')), t', at';
    }
    t' := q.verdict.tally;
    if |t'.seen| == |want| {
      r := Some(Report(Answered, i + 1, at'));
    } else if |t'.seen| + |t'.errs| == |want| {
      r := Some(Report(Errors(t'.errs), i + 1, at'));
    } else {
      r := None;
    }
  }

  /** The survey as it is written: three rounds, then the ids never seen. */
  method MakeSurvey(want: set<nat>, rsp: Bytes, failAt: nat, tape: seq<Recv>) returns (r: Report)
    ensures r == Run(want, rsp, failAt, tape)
  {
    var t, at := EMPTY, 0;
    for i := 0 to ROUNDS
      invariant 0 <= at <= |tape|
      invariant Run(want, rsp, failAt, tape) == Rounds(want, rsp, t, i, failAt, tape, at)
    {
      var done;
      done, t, at := Round(want, rsp, t, i, failAt, tape, at);
      if done.Some? {
        return done.value;
      }
    }
    var unseen := Unseen(want, t.seen);
    r := Report(Missing(unseen), ROUNDS, at);
  }

  /** surveyor.go:113-118 */
  method Unseen(want: set<nat>, seen: set<nat>) returns (unseen: set<nat>)
    ensures unseen == want - seen
  {
    unseen := {};
    var left := want;
    while left != {}
      invariant left <= want && unseen == (want - left) - seen
      decreases left
    {
      var k :| k in left;
      left := left - {k};
      if k !in seen {
        unseen := unseen + {k};
      }
    }
  }

  /* ---------- what the outcome means ---------- */

  /** What one entry of the tape adds to a tally. */
  function Add(rsp: Bytes, t: Tally, m: Recv): Tally {
    if !m.Got? then t else
      match Read(rsp, m.bs)
      case Credit(id) => t.(seen := t.seen + {id})
      case Refusal(id, what) => t.(errs := t.errs[id := what])
      case TooShort => t
      case Unreadable => t
  }

  /** What the first n entries of the tape say: who was credited, and who was refused. */
  function Tallied(rsp: Bytes, tape: seq<Recv>, n: nat): Tally
    requires n <= |tape|
  {
    if n == 0 then EMPTY else Add(rsp, Tallied(rsp, tape, n - 1), tape[n - 1])
  }

  predicate Credits(rsp: Bytes, m: Recv, id: nat) {
    m.Got? && Read(rsp, m.bs) == Credit(id)
  }

  /** The credited ids are those some reply carries after rsp. */
  lemma {:induction false} CreditedMember(rsp: Bytes, tape: seq<Recv>, n: nat, id: nat)
    requires n <= |tape|
    ensures id in Tallied(rsp, tape, n).seen <==> exists i :: 0 <= i < n && Credits(rsp, tape[i], id)
  {
    if n > 0 {
      CreditedMember(rsp, tape, n - 1, id);
    }
  }

  /** The tally stays within the expected ids and is not overdrawn. */
  ghost predicate Solvent(want: set<nat>, t: Tally) {
    t.seen <= want && Owed(want, t) >= 0
  }

  /** One receive keeps the tally equal to what the replies say. */
  lemma ReceiveTally(want: set<nat>, rsp: Bytes, t: Tally, tape: seq<Recv>, at: nat)
    requires at < |tape| && t == Tallied(rsp, tape, at) && Solvent(want, t) && Owed(want, t) > 0
    ensures tape[at].NoReply? ==> t == Tallied(rsp, tape, at + 1)
    ensures tape[at].Got? ==>
      var v := Absorb(want, rsp, t, tape[at].bs);
      v.Continue? ==>
        && v.tally == Tallied(rsp, tape, at + 1) && Solvent(want, v.tally)
        && Owed(want, v.tally) >= Owed(want, t) - 1
  {
  }

  /** A round keeps the tally equal to what the consumed replies say, and never overdraws it. */
  lemma {:induction false} QueryTally(want: set<nat>, rsp: Bytes, t: Tally, k: int, tape: seq<Recv>, at: nat,
                                      q: QueryEnd)
    requires at <= |tape| && t == Tallied(rsp, tape, at) && Solvent(want, t) && k <= Owed(want, t)
    requires q == Query(want, rsp, t, k, tape, at) && q.verdict.Continue?
    ensures q.verdict.tally == Tallied(rsp, tape, q.at) && Solvent(want, q.verdict.tally)
    decreases |tape| - at
  {
    if k > 0 && at < |tape| {
      ReceiveTally(want, rsp, t, tape, at);
      if tape[at].Got? {
        QueryTally(want, rsp, Absorb(want, rsp, t, tape[at].bs).tally, k - 1, tape, at + 1, q);
      }
    }
  }

  /** What each outcome says about the tally of the consumed replies. */
  ghost predicate OutcomeOk(want: set<nat>, t: Tally, out: Outcome) {
    match out
    case Answered => t.seen == want
    case Missing(ids) => ids != {} && t.seen <= want && ids == want - t.seen
    case Errors(errs) => errs != map[] && errs == t.errs && |t.seen| + |errs| == |want|
    case _ => true
  }

  /** The checks after a round (surveyor.go:92-110) read the tally rightly. */
  lemma RoundOutcome(want: set<nat>, t: Tally)
    requires Solvent(want, t)
    ensures |t.seen| == |want| ==> OutcomeOk(want, t, Answered)
    ensures |t.seen| != |want| && |t.seen| + |t.errs| == |want| ==> OutcomeOk(want, t, Errors(t.errs))
    ensures |t.seen| != |want| ==> OutcomeOk(want, t, Missing(want - t.seen))
  {
    assert |want - t.seen| == |want| - |t.seen|;
    if |t.seen| == |want| {
      assert want - t.seen == {};
    }
  }

  lemma {:induction false} RoundsUsed(want: set<nat>, rsp: Bytes, t: Tally, i: nat, failAt: nat, tape: seq<Recv>,
                                      at: nat)
    requires at <= |tape| && i <= ROUNDS
    ensures var r := Rounds(want, rsp, t, i, failAt, tape, at);
            var n := |want|;
            && r.sent <= ROUNDS && at <= r.used <= |tape|
            && r.used <= at + (if i == 0 then n + n + n else if i == 1 then n + n else if i == 2 then n else 0)
    decreases ROUNDS - i
  {
    if i < ROUNDS && i != failAt {
      var q := Query(want, rsp, t, Owed(want, t), tape, at);
      if q.verdict.Continue? {
        RoundsUsed(want, rsp, q.verdict.tally, i + 1, failAt, tape, q.at);
      }
    }
  }

  lemma {:induction false} RoundsOutcome(want: set<nat>, rsp: Bytes, t: Tally, i: nat, failAt: nat, tape: seq<Recv>,
                                         at: nat)
    requires at <= |tape| && i <= ROUNDS
    requires t == Tallied(rsp, tape, at) && Solvent(want, t) && (i > 0 ==> |t.seen| != |want|)
    ensures var r := Rounds(want, rsp, t, i, failAt, tape, at);
            && (r.out.Missing? ==> r.sent == ROUNDS)
            && r.used <= |tape| && OutcomeOk(want, Tallied(rsp, tape, r.used), r.out)
    decreases ROUNDS - i
  {
    if i == ROUNDS {
      RoundOutcome(want, t);
    } else if i != failAt {
      var q := Query(want, rsp, t, Owed(want, t), tape, at);
      if q.verdict.Continue? {
        var t' := q.verdict.tally;
        QueryTally(want, rsp, t, Owed(want, t), tape, at, q);
        RoundOutcome(want, t');
        if |t'.seen| != |want| && |t'.seen| + |t'.errs| != |want| {
          RoundsOutcome(want, rsp, t', i + 1, failAt, tape, q.at);
        }
      }
    }
  }

  /** Survey accounting, for every expected set and every tape: at most three sends and
      3*num receives; nil means the credited ids are exactly the expected ones; a Missing
      result comes after three sends, is not empty, and is exactly expected minus credited. */
  lemma SurveyAccounting(want: set<nat>, rsp: Bytes, failAt: nat, tape: seq<Recv>)
    ensures var r := Run(want, rsp, failAt, tape);
            && r.sent <= 3 && (r.out.Missing? ==> r.sent == 3)
            && r.used <= |tape| && r.used <= 3 * |want|
            && OutcomeOk(want, Tallied(rsp, tape, r.used), r.out)
  {
    RoundsUsed(want, rsp, EMPTY, 0, failAt, tape, 0);
    RoundsOutcome(want, rsp, EMPTY, 0, failAt, tape, 0);
  }

  /** Round i is reached at position at with tally t. */
  ghost predicate ReachesRound(want: set<nat>, rsp: Bytes, tape: seq<Recv>, i: nat, at: nat, t: Tally)
    requires at <= |tape|
    decreases i
  {
    if i == 0 then t == EMPTY && at == 0
    else exists t0, at0: nat :: at0 <= at && ReachesRound(want, rsp, tape, i - 1, at0, t0)
           && Query(want, rsp, t0, Owed(want, t0), tape, at0) == QueryEnd(Continue(t), at)
  }

  /** toRecv is never negative in any round, and seen never leaves the expected ids. */
  lemma {:induction false} OwedNeverNegative(want: set<nat>, rsp: Bytes, tape: seq<Recv>, i: nat, at: nat, t: Tally)
    requires at <= |tape| && ReachesRound(want, rsp, tape, i, at, t)
    ensures t.seen <= want && Owed(want, t) >= 0 && t == Tallied(rsp, tape, at)
    decreases i
  {
    if i > 0 {
      var t0, at0: nat :| at0 <= at && ReachesRound(want, rsp, tape, i - 1, at0, t0)
        && Query(want, rsp, t0, Owed(want, t0), tape, at0) == QueryEnd(Continue(t), at);
      OwedNeverNegative(want, rsp, tape, i - 1, at0, t0);
      QueryTally(want, rsp, t0, Owed(want, t0), tape, at0, QueryEnd(Continue(t), at));
    }
  }

  lemma {:induction false} AllAnswer(want: set<nat>, rsp: Bytes, order: seq<nat>, tape: seq<Recv>, at: nat, t: Tally)
    requires t.errs == map[] && t.seen <= want
    requires at <= |order| <= |tape| && |order| - at == |want| - |t.seen|
    requires forall i, j :: 0 <= i < j < |order| ==> order[i] != order[j]
    requires forall i :: at <= i < |order| ==>
               order[i] in want && order[i] !in t.seen && Credits(rsp, tape[i], order[i])
    ensures var q := Query(want, rsp, t, |order| - at, tape, at);
            q.at == |order| && q.verdict.Continue? && |q.verdict.tally.seen| == |want|
    decreases |order| - at
  {
    if at < |order| {
      assert Credits(rsp, tape[at], order[at]);
      AllAnswer(want, rsp, order, tape, at + 1, t.(seen := t.seen + {order[at]}));
    }
  }

  /** The converse: when every expected id answers once, in any order, one round is enough. */
  lemma AllAnswerSucceeds(want: set<nat>, rsp: Bytes, failAt: nat, order: seq<nat>, tape: seq<Recv>)
    requires failAt != 0 && |order| == |want| <= |tape|
    requires forall i, j :: 0 <= i < j < |order| ==> order[i] != order[j]
    requires forall i :: 0 <= i < |order| ==> order[i] in want && Credits(rsp, tape[i], order[i])
    ensures Run(want, rsp, failAt, tape) == Report(Answered, 1, |want|)
  {
    assert Owed(want, EMPTY) == |order|;
    AllAnswer(want, rsp, order, tape, 0, EMPTY);
  }
}
