/** One websocket connection: the read/send loop of rest/ws/chans.go with HangupSender.Read
    of rest/ws/hangup.go as its reader, interleaved with the closing of the signal and with
    WriteErrors, which drains the channel of content errors. */
module ReadSend {
  import opened Steps

  datatype Err = NoErr | EOF | OtherErr

  /** What a SocketReader returns, the bytes left out. */
  datatype ReadResult = ReadResult(ok: bool, err: Err)

  const HUNG_UP := ReadResult(true, EOF)

  /** The slots of the errs channel (ws.go:84). */
  const SLOTS := 10

  /** The points between which the signal can close. */
  datatype Point =
    | Top                            // before the select on ch.fail (chans.go:77)
    | Entered                        // before Read's first select (hangup.go:49)
    | Reading                        // in h.sr(c)
    | Returning(r: ReadResult)       // before the deferred select (hangup.go:73)
    | Dispatching(r: ReadResult)     // Read has returned r (chans.go:82-100)
    | Stopped                        // done is closed

  /** The errors waiting in errs, whether WriteErrors still runs, the bus Sends so far, and those
      started after the signal closed. */
  datatype State = State(at: Point, signal: bool, fail: bool, errs: nat, writer: bool, sends: nat, late: nat)

  const START := State(Top, false, false, 0, true, 0, 0)

  datatype Event =
    | CloseSignal
    | CloseFail                                 // RecvWrite has stopped
    | Take                                      // WriteErrors receives an error
    | WriterStops                               // its Write has failed
    | Own(read: ReadResult, sendOk: bool)       // the loop's next action; read and sendOk are the outside's answers

  predicate ContentError(at: Point) {
    at.Dispatching? && !at.r.ok && !at.r.err.EOF?
  }

  /** The loop waits for a slot of errs (chans.go:88-94). */
  predicate Blocked(s: State) {
    ContentError(s.at) && s.errs >= SLOTS
  }

  function OwnStep(s: State, read: ReadResult, sendOk: bool): State {
    match s.at
    case Top => s.(at := if s.fail then Stopped else Entered)
    case Entered => s.(at := if s.signal then Dispatching(HUNG_UP) else Reading)
    case Reading => s.(at := Returning(read))
    case Returning(r) => s.(at := Dispatching(if s.signal then HUNG_UP else r))
    case Dispatching(r) =>
      if r.err.EOF? then s.(at := Stopped)
      else if r.ok && r.err.OtherErr? then s.(at := Stopped)
      else if !r.ok then (if s.errs >= SLOTS then s else s.(at := Top, errs := s.errs + 1))
      else s.(at := if sendOk then Top else Stopped,
              sends := s.sends + 1,
              late := if s.signal then s.late + 1 else s.late)
    case Stopped => s
  }

  function Step(s: State, e: Event): State {
    match e
    case CloseSignal => s.(signal := true)
    case CloseFail => s.(fail := true)
    case Take => if s.writer && s.errs > 0 then s.(errs := s.errs - 1) else s
    case WriterStops => s.(writer := false)
    case Own(read, sendOk) => OwnStep(s, read, sendOk)
  }

  /** The state after the first n events of a schedule. */
  function Run(s: State, events: seq<Event>, n: nat): State
    requires n <= |events|
  {
    if n == 0 then s else Step(Run(s, events, n - 1), events[n - 1])
  }

  /** The loop's own actions among events from..n. */
  function OwnCount(events: seq<Event>, from: nat, n: nat): nat
    requires from <= n <= |events|
  {
    if n == from then 0 else OwnCount(events, from, n - 1) + if events[n - 1].Own? then 1 else 0
  }

  /** How many of the loop's own actions are left at most, once the signal is closed. */
  function Left(at: Point): nat {
    match at
    case Stopped => 0
    case Dispatching(r) => if r == HUNG_UP then 1 else 4
    case Returning(_) => 2
    case Entered => 2
    case Top => 3
    case Reading => 3
  }

  ghost predicate Inv(s: State) {
    && s.late <= 1 && (s.late > 0 ==> s.signal) && s.errs <= SLOTS
    && (s.late == 1 ==> s.at in {Top, Entered, Dispatching(HUNG_UP), Stopped})
  }

  lemma {:induction false} RunKeepsInv(events: seq<Event>, n: nat)
    requires n <= |events|
    ensures Inv(Run(START, events, n))
  {
    if n > 0 {
      RunKeepsInv(events, n - 1);
    }
  }

  /** Over every interleaving, at most one Send reaches the bus after the signal has closed. */
  lemma AtMostOneLateSend(events: seq<Event>, n: nat)
    requires n <= |events|
    ensures Run(START, events, n).late <= 1
  {
    RunKeepsInv(events, n);
  }

  lemma {:induction false} SendsSplit(events: seq<Event>, m: nat, n: nat)
    requires m <= n <= |events| && Run(START, events, m).signal
    ensures var s, s' := Run(START, events, m), Run(START, events, n);
            s'.signal && s'.sends - s.sends == s'.late - s.late
  {
    if m < n {
      SendsSplit(events, m, n - 1);
    }
  }

  /** The same, counted on the bus: after any state with a closed signal, one more Send at most. */
  lemma OneMoreSend(events: seq<Event>, m: nat, n: nat)
    requires m <= n <= |events| && Run(START, events, m).signal
    ensures Run(START, events, n).sends <= Run(START, events, m).sends + 1
  {
    RunKeepsInv(events, m);
    RunKeepsInv(events, n);
    SendsSplit(events, m, n);
  }

  /** The bound is tight: closing between the deferred select and the Send lets that Send out. */
  lemma OneLateSendHappens()
    ensures exists events, n: nat ::
              n <= |events| && Run(START, events, n) == State(Stopped, true, false, 0, true, 1, 1)
  {
    var good := ReadResult(true, NoErr);
    var act := Own(good, true);
    var es := [act, act, act, act, CloseSignal, act, act, act, act];
    assert Run(START, es, 1) == START.(at := Entered);
    assert Run(START, es, 2) == START.(at := Reading);
    assert Run(START, es, 3) == START.(at := Returning(good));
    assert Run(START, es, 4) == START.(at := Dispatching(good));
    var s := START.(signal := true, sends := 1, late := 1);
    assert Run(START, es, 5) == START.(at := Dispatching(good), signal := true);
    assert Run(START, es, 6) == s;
    assert Run(START, es, 7) == s.(at := Entered);
    assert Run(START, es, 8) == s.(at := Dispatching(HUNG_UP));
    assert Run(START, es, 9) == s.(at := Stopped);
  }

  /* ---------- what the loop does with what it reads ---------- */

  /** The state before event k. */
  function At(events: seq<Event>, k: nat): State
    requires k <= |events|
  {
    Run(START, events, k)
  }

  /** At event k the loop acts, at a point of this kind. */
  predicate Sends(events: seq<Event>, k: nat) {
    && k < |events| && events[k].Own? && At(events, k).at.Dispatching?
    && At(events, k).at.r == ReadResult(true, NoErr)
  }

  predicate SendsLate(events: seq<Event>, k: nat) {
    Sends(events, k) && At(events, k).signal
  }

  predicate Reports(events: seq<Event>, k: nat) {
    k < |events| && events[k].Own? && ContentError(At(events, k).at) && At(events, k).errs < SLOTS
  }

  predicate Drains(events: seq<Event>, k: nat) {
    k < |events| && events[k].Take? && At(events, k).writer && At(events, k).errs > 0
  }

  /** The bus gets exactly the good messages the loop comes to dispatch. */
  lemma {:induction false} SendsCount(events: seq<Event>, n: nat)
    requires n <= |events|
    ensures At(events, n).sends == Count((k: nat) => Sends(events, k), n)
    ensures At(events, n).late == Count((k: nat) => SendsLate(events, k), n)
  {
    if n > 0 {
      SendsCount(events, n - 1);
    }
  }

  /** And errs exactly the content errors that find a slot. */
  lemma {:induction false} ErrsCount(events: seq<Event>, n: nat)
    requires n <= |events|
    ensures At(events, n).errs + Count((k: nat) => Drains(events, k), n) == Count((k: nat) => Reports(events, k), n)
  {
    if n > 0 {
      ErrsCount(events, n - 1);
    }
  }

  /** m is the loop's next action after k. */
  ghost predicate NextOwn(events: seq<Event>, k: nat, m: nat) {
    k < m < |events| && events[k].Own? && events[m].Own? && forall j :: k < j < m ==> !events[j].Own?
  }

  lemma {:induction false} OthersWait(events: seq<Event>, k: nat, m: nat)
    requires k < m <= |events| && forall j :: k < j < m ==> !events[j].Own?
    ensures At(events, m).at == At(events, k + 1).at
  {
    if k + 1 < m {
      OthersWait(events, k, m - 1);
    }
  }

  /** What the socket gives is what the loop dispatches, unless the signal has closed by the time it
      is returned. */
  lemma ReadIsDispatched(events: seq<Event>, k: nat, m: nat)
    requires NextOwn(events, k, m) && At(events, k).at == Reading
    ensures At(events, m + 1).at == Dispatching(if At(events, m).signal then HUNG_UP else events[k].read)
  {
    OthersWait(events, k, m);
  }

  /** Exactly when the loop stops: its fail channel is closed at the top, it dispatches an EOF or a
      read error, or its Send fails. */
  lemma StopsIff(events: seq<Event>, n: nat)
    requires n < |events| && At(events, n).at != Stopped
    ensures At(events, n + 1).at == Stopped <==>
      && events[n].Own?
      && match At(events, n).at
         case Top => At(events, n).fail
         case Dispatching(r) => r.err == EOF || (r.ok && (r.err == OtherErr || !events[n].sendOk))
         case _ => false
  {
  }

  /** The channels are closed, and the writer gone, exactly by the events that say so. */
  lemma {:induction false} FlagsIff(events: seq<Event>, n: nat)
    requires n <= |events|
    ensures At(events, n).signal <==> exists k :: 0 <= k < n && events[k] == CloseSignal
    ensures At(events, n).fail <==> exists k :: 0 <= k < n && events[k] == CloseFail
    ensures !At(events, n).writer <==> exists k :: 0 <= k < n && events[k] == WriterStops
  {
    if n > 0 {
      FlagsIff(events, n - 1);
    }
  }

  /* ---------- the end of the loop ---------- */

  /** With the signal closed, a loop that is not blocked never will be. */
  lemma {:induction false} CountDown(s: State, events: seq<Event>, n: nat)
    requires n <= |events| && s.signal && !Blocked(s)
    ensures var s' := Run(s, events, n);
            && s'.signal && !Blocked(s')
            && (s'.at.Stopped? || Left(s'.at) + OwnCount(events, 0, n) <= Left(s.at))
  {
    if n > 0 {
      CountDown(s, events, n - 1);
    }
  }

  /** Then the loop ends: four of its own actions after the signal closed it has stopped,
      whatever the socket and the bus answer. */
  lemma StopsAfterHangup(s: State, events: seq<Event>, n: nat)
    requires n <= |events| && s.signal && !Blocked(s) && OwnCount(events, 0, n) >= 4
    ensures Run(s, events, n).at.Stopped?
  {
    CountDown(s, events, n);
  }

  /** Blocked on errs with nobody left to drain it. */
  predicate Stuck(s: State) {
    Blocked(s) && !s.writer
  }

  lemma {:induction false} StuckForGood(s: State, events: seq<Event>, n: nat)
    requires n <= |events| && Stuck(s)
    ensures Stuck(Run(s, events, n)) && Run(s, events, n).at == s.at
  {
    if n > 0 {
      StuckForGood(s, events, n - 1);
    }
  }

  const ACT := Own(HUNG_UP, true)

  /** From a state that is not stuck, a schedule on which the loop ends. */
  lemma CanStop(s: State) returns (es: seq<Event>)
    requires s.signal && s.errs <= SLOTS && !Stuck(s)
    ensures Run(s, es, |es|).at.Stopped?
  {
    if Blocked(s) {
      es := [Take, ACT, ACT, ACT, ACT];
      assert Run(s, es, 0) == s;
      assert Run(s, es, 1) == s.(errs := SLOTS - 1);
      assert Run(s, es, 2) == s.(at := Top);
      assert Run(s, es, 3) == s.(at := if s.fail then Stopped else Entered);
      assert Run(s, es, 4).at in {Stopped, Dispatching(HUNG_UP)};
    } else {
      es := [ACT, ACT, ACT, ACT];
      assert OwnCount(es, 0, 1) == 1 && OwnCount(es, 0, 2) == 2 && OwnCount(es, 0, 3) == 3;
      StopsAfterHangup(s, es, 4);
    }
  }

  /** Exactly, in every reachable state: once the signal has closed, the loop can still end if and
      only if it is not stuck on a full errs channel that WriteErrors has left. */
  lemma HangupIsSeenIff(events: seq<Event>, m: nat)
    requires m <= |events| && Run(START, events, m).signal
    ensures var s := Run(START, events, m);
            !Stuck(s) <==> exists es: seq<Event> :: Run(s, es, |es|).at.Stopped?
  {
    var s := Run(START, events, m);
    RunKeepsInv(events, m);
    if Stuck(s) {
      forall es: seq<Event> ensures !Run(s, es, |es|).at.Stopped? { StuckForGood(s, es, |es|); }
    } else {
      var es := CanStop(s);
    }
  }

  /* ---------- and it can be stuck ---------- */

  const BAD := Own(ReadResult(false, OtherErr), true)

  /** WriteErrors stops, and then only malformed messages come. */
  function Malformed(n: nat): seq<Event> {
    [WriterStops] + seq(n, _ => BAD)
  }

  /** Reading a malformed message. */
  lemma ReadsBad(es: seq<Event>, c: nat, s: State)
    requires c + 4 <= |es| && forall i :: c <= i < c + 4 ==> es[i] == BAD
    requires Run(START, es, c) == s && s.at == Top && !s.signal && !s.fail
    ensures Run(START, es, c + 4) == s.(at := Dispatching(BAD.read))
  {
    assert Run(START, es, c + 1) == s.(at := Entered);
    assert Run(START, es, c + 2) == s.(at := Reading);
    assert Run(START, es, c + 3) == s.(at := Returning(BAD.read));
  }

  lemma {:induction false} Fills(n: nat, k: nat)
    requires k <= SLOTS && 5 * k + 4 <= n
    ensures Run(START, Malformed(n), 5 * k + 5) == START.(at := Dispatching(BAD.read), writer := false, errs := k)
  {
    var es, c, s := Malformed(n), 5 * k + 1, START.(writer := false, errs := k);
    if k == 0 {
      assert Run(START, es, 0) == START;
    } else {
      Fills(n, k - 1);
      assert es[c - 1] == BAD;
    }
    ReadsBad(es, c, s);
  }

  lemma {:induction false} RunPrefix(s: State, es: seq<Event>, more: seq<Event>, n: nat)
    requires n <= |es|
    ensures Run(s, es + more, n) == Run(s, es, n)
  {
    if n > 0 {
      RunPrefix(s, es, more, n - 1);
    }
  }

  lemma HangupWhileFull(n: nat)
    requires n == 5 * SLOTS + 4
    ensures var s := Run(START, Malformed(n) + [CloseSignal], n + 2); s.signal && Stuck(s)
  {
    Fills(n, SLOTS);
    RunPrefix(START, Malformed(n), [CloseSignal], n + 1);
  }

  /** Eleven malformed messages after WriteErrors has stopped, and then the hangup. */
  lemma StuckHappens() returns (es: seq<Event>)
    ensures Run(START, es, |es|).signal && Stuck(Run(START, es, |es|))
  {
    var n: nat :| n == 5 * SLOTS + 4;
    HangupWhileFull(n);
    es := Malformed(n) + [CloseSignal];
  }
}
