/** Runs of the hangup protocol by their steps: what is so because of what was done, which reply
    answers which survey, and a run that deletes a user. */
module HangupRuns {
  import opened Wire
  import opened Steps
  import opened Hangup
  import Survey

  /** The state after the first n steps; a step that is not enabled does nothing. */
  function After(steps: seq<Step>, n: nat): State
    requires n <= |steps|
  {
    if n == 0 then INIT
    else
      var s := After(steps, n - 1);
      if Enabled(s, steps[n - 1]) then Apply(s, steps[n - 1]) else s
  }

  /** Every step is enabled when it comes. */
  ghost predicate Possible(steps: seq<Step>) {
    forall k :: 0 <= k < |steps| ==> Enabled(After(steps, k), steps[k])
  }

  /** The first n + 1 states. */
  function States(steps: seq<Step>, n: nat): (ts: seq<State>)
    requires n <= |steps|
    ensures |ts| == n + 1
  {
    if n == 0 then [INIT] else States(steps, n - 1) + [After(steps, n)]
  }

  lemma {:induction false} StateAt(steps: seq<Step>, n: nat, i: nat)
    requires i <= n <= |steps|
    ensures States(steps, n)[i] == After(steps, i)
  {
    if i < n { StateAt(steps, n - 1, i); }
  }

  lemma AfterNext(steps: seq<Step>, i: nat)
    requires i < |steps| && Enabled(After(steps, i), steps[i])
    ensures Next(After(steps, i), After(steps, i + 1))
  {
    var s, step := After(steps, i), steps[i];
    assert After(steps, i + 1) == Apply(s, step);
  }

  lemma {:induction false} StatesTrace(steps: seq<Step>, n: nat)
    requires Possible(steps) && n <= |steps|
    ensures Trace(States(steps, n))
  {
    if n > 0 {
      StatesTrace(steps, n - 1);
      StateAt(steps, n - 1, n - 1);
      AfterNext(steps, n - 1);
      TraceMore(States(steps, n - 1), After(steps, n));
    }
  }

  lemma TraceMore(ts: seq<State>, s: State)
    requires Trace(ts) && Next(ts[|ts| - 1], s)
    ensures Trace(ts + [s])
  {
    var ts' := ts + [s];
    forall i | 0 <= i < |ts'| - 1 ensures Next(ts'[i], ts'[i + 1]) {
      if i < |ts| - 1 { assert Next(ts[i], ts[i + 1]); }
    }
  }

  lemma {:induction false} AfterPrefix(steps: seq<Step>, more: seq<Step>, n: nat)
    requires n <= |steps|
    ensures After(steps + more, n) == After(steps, n)
  {
    if n > 0 {
      AfterPrefix(steps, more, n - 1);
    }
  }

  /** Every trace is made by steps. */
  lemma {:induction false} TraceHasSteps(ts: seq<State>, n: nat) returns (steps: seq<Step>)
    requires Trace(ts) && n < |ts|
    ensures |steps| == n && Possible(steps) && forall i :: 0 <= i <= n ==> ts[i] == After(steps, i)
  {
    if n == 0 {
      steps := [];
    } else {
      var front := TraceHasSteps(ts, n - 1);
      assert Next(ts[n - 1], ts[n - 1 + 1]);
      var step :| Enabled(ts[n - 1], step) && ts[n] == Apply(ts[n - 1], step);
      steps := front + [step];
      forall i | 0 <= i < n ensures After(steps, i) == After(front, i) { AfterPrefix(front, [step], i); }
    }
  }

  /** Nothing is stuck: until its reply has left, a connection can take its next step, whatever the
      others do; surveyors can send, and receive whatever is on its way to them, or nothing; and a
      handler that has ended and left AwaitHangup can clean up. */
  lemma Progress(s: State, key: Key, j: nat, bs: Bytes, r: Rep)
    requires Inv(s) && key in s.conns
    ensures match s.conns[key].phase
            case Waiting => Enabled(s, RecvError(key)) && forall a :: a in s.asks && a.to == key ==> Enabled(s, Hear(a))
            case Heard(_, _) => Enabled(s, CloseSignal(key))
            case Replying(_, _) => Enabled(s, Answer(key)) && Enabled(s, AnswerFails(key))
            case Done => s.conns[key].ended && key.path in s.rows ==> Enabled(s, Cleanup(key))
    ensures Enabled(s, End(key))
    ensures j < |s.surveyors| ==> Enabled(s, Send(j, bs)) && Enabled(s, Silence(j)) && Enabled(s, Broken(j))
    ensures r in s.reps ==> Enabled(s, Deliver(r))
    ensures key.n in Rows(s, key.path) ==> Enabled(s, Prepare(key.path))
  {
  }

  /** A bucket's first 2^64 - 2 registrations are never refused, however many rows there are. */
  lemma RegisterIsFree(s: State, p: Path)
    requires Inv(s) && Counter(s, p) + 1 < U64
    ensures Enabled(s, Register(p))
  {
    forall n | n in Rows(s, p) ensures Num(n) != Num(Counter(s, p) + 1) {
      assert RowOk(s, Key(p, n));
    }
  }

  /* ---------- what is so because of what was done ---------- */

  /** Step k is possible, and is this one. */
  predicate Does(steps: seq<Step>, k: nat, step: Step) {
    k < |steps| && steps[k] == step && Enabled(After(steps, k), step)
  }

  /** Step k registers key. */
  predicate Registers(steps: seq<Step>, k: nat, key: Key) {
    Does(steps, k, Register(key.path)) && key.n == Counter(After(steps, k), key.path) + 1
  }

  lemma {:induction false} AfterInv(steps: seq<Step>, n: nat)
    requires n <= |steps|
    ensures Inv(After(steps, n))
  {
    if n > 0 {
      AfterInv(steps, n - 1);
      if Enabled(After(steps, n - 1), steps[n - 1]) { StepKeepsInv(After(steps, n - 1), steps[n - 1]); }
    }
  }

  lemma AfterOne(steps: seq<Step>, k: nat)
    requires k < |steps|
    ensures Inv(After(steps, k))
    ensures After(steps, k + 1) ==
              if Enabled(After(steps, k), steps[k]) then Apply(After(steps, k), steps[k]) else After(steps, k)
  {
    AfterInv(steps, k);
  }

  /** What is looked at of a connection. */
  datatype Trait = Known | Closed | Ended | Left | Waits

  predicate Has(s: State, key: Key, x: Trait) {
    && key in s.conns
    && match x
       case Known => true
       case Closed => s.conns[key].closed
       case Ended => s.conns[key].ended
       case Left => s.conns[key].phase.Done?
       case Waits => s.conns[key].phase.Waiting?
  }

  predicate First(s: State, step: Step, key: Key) {
    step == Register(key.path) && key.n == Counter(s, key.path) + 1
  }

  /** The step makes it so. */
  predicate GivesTrait(s: State, step: Step, key: Key, x: Trait) {
    && Enabled(s, step)
    && match x
       case Known => First(s, step, key)
       case Waits => First(s, step, key)
       case Closed => step == CloseSignal(key)
       case Ended => step == End(key)
       case Left => step == Answer(key) || step == AnswerFails(key) || step == RecvError(key)
  }

  /** Waiting ends when Recv fails or returns a survey; the rest is for good. */
  predicate TakesTrait(s: State, step: Step, key: Key, x: Trait) {
    x.Waits? && Enabled(s, step) && (step == RecvError(key) || (step.Hear? && step.ask.to == key))
  }

  lemma StepTrait(s: State, step: Step, key: Key, x: Trait)
    requires Inv(s) && Enabled(s, step)
    ensures Has(Apply(s, step), key, x) <==>
              GivesTrait(s, step, key, x) || (Has(s, key, x) && !TakesTrait(s, step, key, x))
  {
    assert RowOk(s, key) && ConnOk(s, key);
  }

  predicate HasAt(steps: seq<Step>, n: nat, key: Key, x: Trait) {
    n <= |steps| && Has(After(steps, n), key, x)
  }

  predicate GivesAt(steps: seq<Step>, k: nat, key: Key, x: Trait) {
    k < |steps| && GivesTrait(After(steps, k), steps[k], key, x)
  }

  predicate TakesAt(steps: seq<Step>, k: nat, key: Key, x: Trait) {
    k < |steps| && TakesTrait(After(steps, k), steps[k], key, x)
  }

  lemma StepTraitAt(steps: seq<Step>, k: nat, key: Key, x: Trait)
    requires k < |steps|
    ensures HasAt(steps, k + 1, key, x)
       <==> GivesAt(steps, k, key, x) || (HasAt(steps, k, key, x) && !TakesAt(steps, k, key, x))
  {
    AfterOne(steps, k);
    if Enabled(After(steps, k), steps[k]) { StepTrait(After(steps, k), steps[k], key, x); }
  }

  /** A connection is known exactly if it was registered, closed exactly if it closed its signal, ended
      exactly if its handler stopped serving, has left AwaitHangup exactly if its reply left, failed
      to, or its Recv failed, and waits exactly if it was registered and has heard nothing since. */
  lemma TraitIff(steps: seq<Step>, n: nat, key: Key, x: Trait)
    requires n <= |steps|
    ensures HasAt(steps, n, key, x)
       <==> Since((k: nat) => GivesAt(steps, k, key, x), (k: nat) => TakesAt(steps, k, key, x), n)
  {
    forall k: nat | k < n
      ensures HasAt(steps, k + 1, key, x)
         <==> GivesAt(steps, k, key, x) || (HasAt(steps, k, key, x) && !TakesAt(steps, k, key, x))
    {
      StepTraitAt(steps, k, key, x);
    }
    HoldsSince((k: nat) => HasAt(steps, k, key, x), (k: nat) => GivesAt(steps, k, key, x),
               (k: nat) => TakesAt(steps, k, key, x), n);
  }

  predicate HasRow(steps: seq<Step>, n: nat, key: Key) {
    n <= |steps| && key.n in Rows(After(steps, n), key.path)
  }

  /** A row is there exactly if it was registered and not cleaned up since. */
  lemma RowIff(steps: seq<Step>, n: nat, key: Key)
    requires n <= |steps|
    ensures HasRow(steps, n, key)
       <==> Since((k: nat) => Registers(steps, k, key), (k: nat) => Does(steps, k, Cleanup(key)), n)
  {
    forall k: nat | k < n
      ensures HasRow(steps, k + 1, key)
         <==> Registers(steps, k, key) || (HasRow(steps, k, key) && !Does(steps, k, Cleanup(key)))
    {
      AfterOne(steps, k);
    }
    HoldsSince((k: nat) => HasRow(steps, k, key), (k: nat) => Registers(steps, k, key),
               (k: nat) => Does(steps, k, Cleanup(key)), n);
  }

  /** What a step makes surveyor j's Recv return. */
  function Hears(step: Step, j: nat): seq<Survey.Recv> {
    match step
    case Deliver(rep) => if rep.surveyor == j then [Survey.Got(rep.bs)] else []
    case Silence(i) => if i == j then [Survey.NoReply] else []
    case Broken(i) => if i == j then [Survey.RecvFailed] else []
    case _ => []
  }

  function Received(steps: seq<Step>, n: nat, j: nat): seq<Survey.Recv>
    requires n <= |steps|
  {
    if n == 0 then []
    else
      Received(steps, n - 1, j)
      + if Enabled(After(steps, n - 1), steps[n - 1]) then Hears(steps[n - 1], j) else []
  }

  function Log(s: State, j: nat): seq<Survey.Recv> {
    if j < |s.surveyors| then s.surveyors[j].log else []
  }

  lemma StepLog(s: State, step: Step, j: nat)
    requires Enabled(s, step)
    ensures Log(Apply(s, step), j) == Log(s, j) + Hears(step, j)
  {
  }

  /** The tape of a surveyor is what was delivered to it, in order, with its timeouts and failures. */
  lemma {:induction false} LogIs(steps: seq<Step>, n: nat, j: nat)
    requires n <= |steps|
    ensures Log(After(steps, n), j) == Received(steps, n, j)
  {
    if n > 0 {
      LogIs(steps, n - 1, j);
      if Enabled(After(steps, n - 1), steps[n - 1]) { StepLog(After(steps, n - 1), steps[n - 1], j); }
    }
  }

  predicate Sent(steps: seq<Step>, n: nat, ask: Ask) {
    n <= |steps| && ask in After(steps, n).asks
  }

  /** At step k the surveyor sends the survey, with the connection there under a number it is after. */
  predicate Asks(steps: seq<Step>, k: nat, ask: Ask) {
    && Does(steps, k, Send(ask.surveyor, ask.bs)) && ask.to in After(steps, k).conns
    && var v := After(steps, k).surveyors[ask.surveyor];
       v.path == ask.to.path && Num(ask.to.n) in Want(v)
  }

  lemma StepAsks(steps: seq<Step>, k: nat, ask: Ask)
    requires k < |steps|
    ensures Sent(steps, k + 1, ask) <==> Sent(steps, k, ask) || Asks(steps, k, ask)
  {
    AfterOne(steps, k);
  }

  /** A survey is on its way exactly if it was so sent. */
  lemma AskIff(steps: seq<Step>, n: nat, ask: Ask)
    requires n <= |steps|
    ensures Sent(steps, n, ask) <==> Ever((k: nat) => Asks(steps, k, ask), n)
  {
    forall k: nat | k < n ensures Sent(steps, k + 1, ask) <==> Sent(steps, k, ask) || Asks(steps, k, ask) {
      StepAsks(steps, k, ask);
    }
    HoldsOnce((k: nat) => Sent(steps, k, ask), (k: nat) => Asks(steps, k, ask), n);
  }

  /* ---------- which reply answers which survey ---------- */

  /** bs is what a connection answers to a survey that was sent to it. */
  predicate Answers(s: State, key: Key, j: nat, survey: Bytes, bs: Bytes) {
    Ask(key, j, survey) in s.asks && bs == if survey == HUP then Reply(OK, Num(key.n)) else Reply(UNKNOWN, Num(key.n))
  }

  ghost predicate PhaseAsked(s: State, key: Key) {
    key in s.conns ==>
      match s.conns[key].phase
      case Heard(survey, j) => Ask(key, j, survey) in s.asks
      case Replying(bs, j) => exists survey :: Answers(s, key, j, survey, bs)
      case _ => true
  }

  ghost predicate RepAsked(s: State, r: Rep) {
    r in s.reps ==> exists key, survey :: Answers(s, key, r.surveyor, survey, r.bs)
  }

  lemma StepAsked(s: State, step: Step)
    requires Enabled(s, step) && (forall key :: PhaseAsked(s, key)) && (forall r :: RepAsked(s, r))
    ensures (forall key :: PhaseAsked(Apply(s, step), key)) && (forall r :: RepAsked(Apply(s, step), r))
  {
    var s' := Apply(s, step);
    assert s.asks <= s'.asks;
    forall key ensures PhaseAsked(s', key) {
      assert PhaseAsked(s, key);
      if step == CloseSignal(key) {
        assert Answers(s', key, s.conns[key].phase.surveyor, s.conns[key].phase.survey, s'.conns[key].phase.reply);
      } else if key in s.conns && s'.conns[key].phase == s.conns[key].phase && s.conns[key].phase.Replying? {
        var survey :| Answers(s, key, s.conns[key].phase.surveyor, survey, s.conns[key].phase.reply);
        assert Answers(s', key, s.conns[key].phase.surveyor, survey, s.conns[key].phase.reply);
      }
    }
    forall r ensures RepAsked(s', r) {
      assert RepAsked(s, r);
      if r in s.reps {
        var key, survey :| Answers(s, key, r.surveyor, survey, r.bs);
        assert Answers(s', key, r.surveyor, survey, r.bs);
      } else if r in s'.reps {
        assert PhaseAsked(s, step.k);
        var survey :| Answers(s, step.k, r.surveyor, survey, r.bs);
        assert Answers(s', step.k, r.surveyor, survey, r.bs);
      }
    }
  }

  lemma {:induction false} AllAsked(steps: seq<Step>, n: nat)
    requires n <= |steps|
    ensures (forall key :: PhaseAsked(After(steps, n), key)) && (forall r :: RepAsked(After(steps, n), r))
  {
    if n > 0 {
      AllAsked(steps, n - 1);
      if Enabled(After(steps, n - 1), steps[n - 1]) { StepAsked(After(steps, n - 1), steps[n - 1]); }
    }
  }

  /** In every run, an OK in flight answers a HUP of its surveyor to a connection with that number,
      and an IDK answers something else. */
  lemma OkAnswersHup(steps: seq<Step>, n: nat, j: nat, id: u64)
    requires n <= |steps|
    ensures Rep(j, Reply(OK, id)) in After(steps, n).reps ==>
              exists key: Key :: Num(key.n) == id && Ask(key, j, HUP) in After(steps, n).asks
    ensures Rep(j, Reply(UNKNOWN, id)) in After(steps, n).reps ==>
              exists key: Key, survey ::
                Num(key.n) == id && survey != HUP && Ask(key, j, survey) in After(steps, n).asks
  {
    AllAsked(steps, n);
    var s := After(steps, n);
    if Rep(j, Reply(OK, id)) in s.reps {
      assert RepAsked(s, Rep(j, Reply(OK, id)));
      var key, survey :| Answers(s, key, j, survey, Reply(OK, id));
      RepliesDiffer(id, Num(key.n));
    }
    if Rep(j, Reply(UNKNOWN, id)) in s.reps {
      assert RepAsked(s, Rep(j, Reply(UNKNOWN, id)));
      var key, survey :| Answers(s, key, j, survey, Reply(UNKNOWN, id));
      RepliesDiffer(id, Num(key.n));
      RepliesDiffer(Num(key.n), id);
    }
  }

  lemma RepliesDiffer(a: u64, b: u64)
    ensures Reply(OK, a) != Reply(UNKNOWN, b)
    ensures Reply(OK, a) == Reply(OK, b) ==> a == b
    ensures Reply(UNKNOWN, a) == Reply(UNKNOWN, b) ==> a == b
  {
    assert Reply(OK, a)[0] == 79 && Reply(UNKNOWN, b)[0] == 73;
    assert Reply(OK, a)[2..] == PutUint(a, 8) && Reply(OK, b)[2..] == PutUint(b, 8);
    assert Reply(UNKNOWN, a)[3..] == PutUint(a, 8) && Reply(UNKNOWN, b)[3..] == PutUint(b, 8);
    Uint64OfPut(a);
    Uint64OfPut(b);
  }
}
