/** The scribe's write loop (convo/scribe.go): messages are buffered, and flushed into the
    bucket when the buffer is full or the timer fires. */
module Scribe {

  import opened Bolt
  import MessageRange

  const MAX_BUFFER := 128

  type Value = MessageRange.Value

  /** A log entry: an RFC 3339 key and the JSON of the message. */
  type LogEntry = Entry<Value>

  datatype Event =
    | Tick                   // timer.C
    | Received(e: LogEntry)     // from toScribe
    | Unreadable             // not JSON: log.Fatalf ends the process
    | ChannelClosed          // hung up

  /** What has been flushed, batch by batch, what is buffered, and whether the loop has ended. */
  datatype State = State(flushed: seq<seq<LogEntry>>, buf: seq<LogEntry>, ended: bool)

  const START := State([], [], false)

  function Flush(s: State): State {
    s.(flushed := s.flushed + [s.buf], buf := [])
  }

  function Step(s: State, e: Event): State {
    if s.ended then s
    else match e
      case Tick => if |s.buf| > 0 then Flush(s) else s
      case Received(entry) =>
        var s' := s.(buf := s.buf + [entry]);
        if |s'.buf| >= MAX_BUFFER then Flush(s') else s'
      case Unreadable => s.(ended := true)
      case ChannelClosed => s.(ended := true)
  }

  function Run(events: seq<Event>, n: nat): State
    requires n <= |events|
  {
    if n == 0 then START else Step(Run(events, n - 1), events[n - 1])
  }

  /* ---------- the bucket ---------- */

  /** The first n entries put in order. */
  function PutAll(m: map<string, Value>, es: seq<LogEntry>, n: nat): map<string, Value>
    requires n <= |es|
  {
    if n == 0 then m else PutAll(m, es, n - 1)[es[n - 1].key := es[n - 1].value]
  }

  /** The first n batches, each in its own transaction. */
  function PutBatches(m: map<string, Value>, batches: seq<seq<LogEntry>>, n: nat): map<string, Value>
    requires n <= |batches|
  {
    if n == 0 then m else PutAll(PutBatches(m, batches, n - 1), batches[n - 1], |batches[n - 1]|)
  }

  function Flat(batches: seq<seq<LogEntry>>): seq<LogEntry> {
    if batches == [] then [] else Flat(batches[..|batches| - 1]) + batches[|batches| - 1]
  }

  lemma {:induction false} RunEnded(events: seq<Event>, i: nat, n: nat)
    requires i <= n <= |events| && Run(events, i).ended
    ensures Run(events, n) == Run(events, i)
  {
    if i < n {
      RunEnded(events, i, n - 1);
    }
  }

  /** The two nested loops, run on a tape of events and a bucket. */
  method WriteLoop(events: seq<Event>, m0: map<string, Value>) returns (m: map<string, Value>, s: State)
    ensures s == Run(events, |events|)
    ensures m == PutBatches(m0, s.flushed, |s.flushed|)
  {
    m := m0;
    var flushed: seq<seq<LogEntry>> := [];
    var at := 0;
    while at < |events|
      invariant 0 <= at <= |events|
      invariant Run(events, at) == State(flushed, [], false)
      invariant m == PutBatches(m0, flushed, |flushed|)
      decreases |events| - at
    {
      var buf: seq<LogEntry> := [];
      var due := false;
      ghost var start := at;
      while |buf| < MAX_BUFFER && at < |events|
        invariant start <= at <= |events| && |buf| <= MAX_BUFFER
        invariant !due && (at == start ==> buf == [])
        invariant if |buf| < MAX_BUFFER then Run(events, at) == State(flushed, buf, false)
                  else Run(events, at) == State(flushed + [buf], [], false)
        decreases |events| - at
      {
        var e := events[at];
        at := at + 1;
        match e
        case Tick =>
          if |buf| > 0 {
            due := true;
            break;
          }
        case Received(entry) => buf := buf + [entry];
        case Unreadable =>
          RunEnded(events, at, |events|);
          return m, State(flushed, buf, true);
        case ChannelClosed =>
          RunEnded(events, at, |events|);
          return m, State(flushed, buf, true);
      }
      if !due && |buf| < MAX_BUFFER {
        return m, State(flushed, buf, false);  // still waiting for the next event
      }
      m := WriteBatch(m, buf);
      BatchesAppend(m0, flushed, buf);
      flushed := flushed + [buf];
    }
    s := State(flushed, [], false);
  }

  /** One transaction (scribe.go:196-201). */
  method WriteBatch(m0: map<string, Value>, buf: seq<LogEntry>) returns (m: map<string, Value>)
    ensures m == PutAll(m0, buf, |buf|)
  {
    m := m0;
    for i := 0 to |buf|
      invariant m == PutAll(m0, buf, i)
    {
      m := m[buf[i].key := buf[i].value];
    }
  }

  lemma {:induction false} BatchesPrefix(m: map<string, Value>, bs: seq<seq<LogEntry>>, cs: seq<seq<LogEntry>>, n: nat)
    requires n <= |bs| && n <= |cs| && bs[..n] == cs[..n]
    ensures PutBatches(m, bs, n) == PutBatches(m, cs, n)
  {
    if n > 0 {
      assert bs[..n - 1] == bs[..n][..n - 1] && cs[..n - 1] == cs[..n][..n - 1];
      assert bs[n - 1] == bs[..n][n - 1] && cs[n - 1] == cs[..n][n - 1];
      BatchesPrefix(m, bs, cs, n - 1);
    }
  }

  lemma BatchesAppend(m: map<string, Value>, bs: seq<seq<LogEntry>>, b: seq<LogEntry>)
    ensures PutBatches(m, bs + [b], |bs| + 1) == PutAll(PutBatches(m, bs, |bs|), b, |b|)
  {
    BatchesPrefix(m, bs + [b], bs, |bs|);
  }

  /* ---------- what the log is ---------- */

  /** What one event adds to the messages received. */
  function Adds(s: State, e: Event): seq<LogEntry> {
    if e.Received? && !s.ended then [e.e] else []
  }

  /** The messages received before the loop ended. */
  function Inbox(events: seq<Event>, n: nat): seq<LogEntry>
    requires n <= |events|
  {
    if n == 0 then []
    else Inbox(events, n - 1) + Adds(Run(events, n - 1), events[n - 1])
  }

  ghost predicate LogOk(s: State, inbox: seq<LogEntry>) {
    && Flat(s.flushed) + s.buf == inbox
    && |s.buf| < MAX_BUFFER
    && forall i :: 0 <= i < |s.flushed| ==> 1 <= |s.flushed[i]| <= MAX_BUFFER
  }

  lemma FlushOk(s: State, inbox: seq<LogEntry>)
    requires Flat(s.flushed) + s.buf == inbox && 1 <= |s.buf| <= MAX_BUFFER
    requires forall i :: 0 <= i < |s.flushed| ==> 1 <= |s.flushed[i]| <= MAX_BUFFER
    ensures LogOk(Flush(s), inbox)
  {
  }

  lemma StepLog(s: State, e: Event, inbox: seq<LogEntry>)
    requires LogOk(s, inbox)
    ensures LogOk(Step(s, e), inbox + Adds(s, e))
  {
    if e.Received? && !s.ended {
      var s' := s.(buf := s.buf + [e.e]);
      assert Flat(s.flushed) + s'.buf == inbox + [e.e];
      if |s'.buf| >= MAX_BUFFER { FlushOk(s', inbox + [e.e]); }
    } else {
      assert inbox + [] == inbox;
      if e.Tick? && !s.ended && |s.buf| > 0 { FlushOk(s, inbox); }
    }
  }

  /** At every step of every run, what was flushed followed by the buffer is what was received,
      in order; each flush writes 1 to 128 messages, and at most 127 wait. */
  lemma {:induction false} ScribeLog(events: seq<Event>, n: nat)
    requires n <= |events|
    ensures LogOk(Run(events, n), Inbox(events, n))
  {
    if n > 0 {
      ScribeLog(events, n - 1);
      StepLog(Run(events, n - 1), events[n - 1], Inbox(events, n - 1));
    }
  }

  /** A scribe that is hung up has persisted all but the last 127 messages at most. */
  lemma LossOnClose(events: seq<Event>, n: nat)
    requires n <= |events| && Run(events, n).ended
    ensures var kept := Flat(Run(events, n).flushed);
            kept <= Inbox(events, n) && |Inbox(events, n)| - |kept| <= 127
  {
    ScribeLog(events, n);
  }

  /** The events that end the loop. */
  predicate Ends(e: Event) {
    e.Unreadable? || e.ChannelClosed?
  }

  /** The loop has ended exactly if the channel was closed or a message could not be read. */
  lemma {:induction false} EndedIff(events: seq<Event>, n: nat)
    requires n <= |events|
    ensures Run(events, n).ended <==> exists i :: 0 <= i < n && Ends(events[i])
  {
    if n > 0 {
      EndedIff(events, n - 1);
    }
  }

  /** After a tick of a running scribe nothing waits: all that was received is flushed. */
  lemma TickDrains(events: seq<Event>, n: nat)
    requires n < |events| && events[n].Tick? && !Run(events, n).ended
    ensures Run(events, n + 1).buf == [] && Flat(Run(events, n + 1).flushed) == Inbox(events, n + 1)
  {
    ScribeLog(events, n + 1);
  }

  /** One more batch, of all that waited: fewer than 128 at a tick, or 128 with the last message. */
  ghost predicate OneBatch(s: State, s': State, e: Event) {
    && |s'.flushed| == |s.flushed| + 1 && s'.flushed[..|s.flushed|] == s.flushed && s'.buf == []
    && var batch := s'.flushed[|s.flushed|];
       (e.Tick? && batch == s.buf && 0 < |batch| < 128) || (e.Received? && batch == s.buf + [e.e] && |batch| == 128)
  }

  /** A flush happens only then. */
  lemma FlushOnlyThen(events: seq<Event>, n: nat)
    requires n < |events|
    ensures var s, s' := Run(events, n), Run(events, n + 1);
            s'.flushed == s.flushed || (!s.ended && OneBatch(s, s', events[n]))
  {
    ScribeLog(events, n);
  }

  lemma {:induction false} PutAppend(m: map<string, Value>, a: seq<LogEntry>, b: seq<LogEntry>, n: nat)
    requires n <= |b|
    ensures PutAll(m, a + b, |a| + n) == PutAll(PutAll(m, a, |a|), b, n)
  {
    if n > 0 {
      PutAppend(m, a, b, n - 1);
    } else {
      PutPrefix(m, a + b, a, |a|);
    }
  }

  lemma {:induction false} PutPrefix(m: map<string, Value>, a: seq<LogEntry>, b: seq<LogEntry>, n: nat)
    requires n <= |a| && n <= |b| && forall i :: 0 <= i < n ==> a[i] == b[i]
    ensures PutAll(m, a, n) == PutAll(m, b, n)
  {
    if n > 0 {
      PutPrefix(m, a, b, n - 1);
    }
  }

  /** Any split into batches leaves the same bucket as writing one by one. */
  lemma {:induction false} BatchingIsInvisible(m: map<string, Value>, batches: seq<seq<LogEntry>>)
    ensures PutBatches(m, batches, |batches|) == PutAll(m, Flat(batches), |Flat(batches)|)
    decreases |batches|
  {
    if batches != [] {
      var front, b := batches[..|batches| - 1], batches[|batches| - 1];
      assert batches == front + [b];
      BatchingIsInvisible(m, front);
      BatchesAppend(m, front, b);
      PutAppend(m, Flat(front), b, |b|);
      assert Flat(batches) == Flat(front) + b;
    }
  }

  /* ---------- one scribe after another ---------- */

  /** The bucket outlives its scribe: what the first n of several lives leave in it. */
  function BucketAfter(lives: seq<seq<Event>>, n: nat): map<string, Value>
    requires n <= |lives|
  {
    if n == 0 then map[]
    else
      var fl := Run(lives[n - 1], |lives[n - 1]|).flushed;
      PutBatches(BucketAfter(lives, n - 1), fl, |fl|)
  }

  /** All that the first n lives have flushed. */
  function Log(lives: seq<seq<Event>>, n: nat): seq<LogEntry>
    requires n <= |lives|
  {
    if n == 0 then [] else Log(lives, n - 1) + Flat(Run(lives[n - 1], |lives[n - 1]|).flushed)
  }

  /** Neither batches nor lives show in the bucket. */
  lemma {:induction false} LivesAreInvisible(lives: seq<seq<Event>>, n: nat)
    requires n <= |lives|
    ensures BucketAfter(lives, n) == PutAll(map[], Log(lives, n), |Log(lives, n)|)
  {
    if n > 0 {
      LivesAreInvisible(lives, n - 1);
      var fl := Run(lives[n - 1], |lives[n - 1]|).flushed;
      BatchingIsInvisible(BucketAfter(lives, n - 1), fl);
      PutAppend(map[], Log(lives, n - 1), Flat(fl), |Flat(fl)|);
    }
  }

  /** Every bucket that puts can leave has a listing. */
  lemma {:induction false} BucketExists(es: seq<LogEntry>, n: nat) returns (b: seq<LogEntry>)
    requires n <= |es|
    ensures Lists(b, PutAll(map[], es, n))
  {
    if n == 0 {
      b := [];
    } else {
      b := BucketExists(es, n - 1);
      InsertLists(b, PutAll(map[], es, n - 1), es[n - 1].key, es[n - 1].value);
      b := Insert(b, es[n - 1].key, es[n - 1].value);
    }
  }

  /** Message i is the last of the first n with its key. */
  ghost predicate LastOfKey(es: seq<LogEntry>, n: nat, i: nat) {
    i < n <= |es| && forall j :: i < j < n ==> es[j].key != es[i].key
  }

  /** The bucket holds, for each key, the last message put under it. */
  lemma {:induction false} LastWins(es: seq<LogEntry>, n: nat, k: string)
    requires n <= |es|
    ensures k in PutAll(map[], es, n) <==> exists i :: 0 <= i < n && es[i].key == k
    ensures forall i :: 0 <= i < n && LastOfKey(es, n, i) && es[i].key == k ==>
              k in PutAll(map[], es, n) && PutAll(map[], es, n)[k] == es[i].value
  {
    if n > 0 {
      LastWins(es, n - 1, k);
      forall i | 0 <= i < n && LastOfKey(es, n, i) && es[i].key == k
        ensures k in PutAll(map[], es, n) && PutAll(map[], es, n)[k] == es[i].value
      {
        if i < n - 1 {
          assert es[n - 1].key != k;
          assert LastOfKey(es, n - 1, i);
        }
      }
    }
  }
}
