/** The message log end to end: scribe, bucket and range query, over stamps of one offset. */
module History {
  import opened Options
  import opened Bolt
  import MessageRange
  import Rfc3339
  import Scribe

  type Value = MessageRange.Value

  /** A received message and its timestamp. */
  datatype Said = Said(stamp: Rfc3339.Stamp, msg: MessageRange.Message)

  /** The entry the scribe makes of it (scribe.go:172-180). */
  function LogEntry(s: Said): Entry<Value> {
    Entry(Rfc3339.Key(s.stamp), MessageRange.Json(s.msg))
  }

  /** The flushed entries are those of the messages said, all of one offset. */
  ghost predicate Logs(said: seq<Said>, flushed: seq<Entry<Value>>, offset: Rfc3339.Offset) {
    && |said| == |flushed|
    && forall i :: 0 <= i < |said| ==>
         flushed[i] == LogEntry(said[i]) && said[i].stamp.offset == offset && Rfc3339.Valid(said[i].stamp.civil)
  }

  function SecondOf(s: Said): int {
    Rfc3339.Second(s.stamp)
  }

  /** Message i is the newest flushed one of its second. */
  ghost predicate Newest(said: seq<Said>, i: nat) {
    i < |said| && forall j :: i < j < |said| ==> SecondOf(said[j]) != SecondOf(said[i])
  }

  lemma NewestIsLast(said: seq<Said>, es: seq<Entry<Value>>, offset: Rfc3339.Offset, i: nat)
    requires Logs(said, es, offset) && i < |said|
    ensures Newest(said, i) <==> Scribe.LastOfKey(es, |es|, i)
  {
    forall j | i < j < |said| ensures SecondOf(said[j]) == SecondOf(said[i]) <==> es[j].key == es[i].key {
      Rfc3339.KeyOrder(said[j].stamp, said[i].stamp);
    }
  }

  /** Every key that was flushed has a newest message. */
  lemma {:induction false} LastExists(es: seq<Entry<Value>>, n: nat, k: string) returns (i: nat)
    requires n <= |es| && exists j :: 0 <= j < n && es[j].key == k
    ensures i < n && es[i].key == k && Scribe.LastOfKey(es, n, i)
  {
    if es[n - 1].key == k {
      i := n - 1;
    } else {
      i := LastExists(es, n - 1, k);
    }
  }

  /** The bucket after the flushes, as the cursor sees it. */
  ghost predicate BucketOf(b: seq<Entry<Value>>, es: seq<Entry<Value>>) {
    Lists(b, Scribe.PutAll(map[], es, |es|))
  }

  /** An entry of the bucket is the newest flushed message of its second. */
  lemma EntryIsNewest(said: seq<Said>, es: seq<Entry<Value>>, offset: Rfc3339.Offset, b: seq<Entry<Value>>,
                      e: Entry<Value>)
    returns (i: nat)
    requires Logs(said, es, offset) && BucketOf(b, es) && e in b
    ensures Newest(said, i) && e == LogEntry(said[i])
  {
    var m := Scribe.PutAll(map[], es, |es|);
    Scribe.LastWins(es, |es|, e.key);
    var at :| 0 <= at < |b| && b[at] == e;
    assert e.key in m && m[e.key] == e.value;
    i := LastExists(es, |es|, e.key);
    NewestIsLast(said, es, offset, i);
  }

  /** And the newest flushed message of any second is in the bucket. */
  lemma NewestIsEntry(said: seq<Said>, es: seq<Entry<Value>>, offset: Rfc3339.Offset, b: seq<Entry<Value>>, i: nat)
    requires Logs(said, es, offset) && BucketOf(b, es) && Newest(said, i)
    ensures LogEntry(said[i]) in b
  {
    var m := Scribe.PutAll(map[], es, |es|);
    NewestIsLast(said, es, offset, i);
    Scribe.LastWins(es, |es|, es[i].key);
    assert HasKey(b, es[i].key);
    var at :| 0 <= at < |b| && b[at].key == es[i].key;
    assert b[at] == LogEntry(said[i]);
  }

  /** A stamp is inside the queried seconds, both ends included. */
  predicate Between(from: Rfc3339.Stamp, s: Rfc3339.Stamp, to: Rfc3339.Stamp) {
    Rfc3339.Second(from) <= Rfc3339.Second(s) <= Rfc3339.Second(to)
  }

  lemma InWindow(from: Rfc3339.Stamp, s: Said, to: Rfc3339.Stamp)
    requires from.offset == s.stamp.offset == to.offset
    requires Rfc3339.Valid(from.civil) && Rfc3339.Valid(s.stamp.civil) && Rfc3339.Valid(to.civil)
    ensures MessageRange.In(LogEntry(s), Rfc3339.Key(from), Rfc3339.Key(to)) <==> Between(from, s.stamp, to)
  {
    Rfc3339.KeyOrder(s.stamp, from);
    Rfc3339.KeyOrder(to, s.stamp);
  }

  /** A query answers with the newest flushed message of each second in the window: an entry is
      in the window of the query exactly when it is that, for some message in the interval. */
  lemma QueryIsNewestPerSecond(said: seq<Said>, es: seq<Entry<Value>>, b: seq<Entry<Value>>,
                               from: Rfc3339.Stamp, to: Rfc3339.Stamp, e: Entry<Value>)
    requires Logs(said, es, from.offset) && BucketOf(b, es) && to.offset == from.offset
    requires Rfc3339.Valid(from.civil) && Rfc3339.Valid(to.civil)
    ensures e in MessageRange.Filter(b, Rfc3339.Key(from), Rfc3339.Key(to), |b|)
       <==> exists i :: 0 <= i < |said| && Newest(said, i) && Between(from, said[i].stamp, to) && e == LogEntry(said[i])
  {
    MessageRange.FilterMember(b, Rfc3339.Key(from), Rfc3339.Key(to), |b|, e);
    assert b[..|b|] == b;
    if e in MessageRange.Filter(b, Rfc3339.Key(from), Rfc3339.Key(to), |b|) {
      var i := EntryIsNewest(said, es, from.offset, b, e);
      InWindow(from, said[i], to);
    }
    if i :| 0 <= i < |said| && Newest(said, i) && Between(from, said[i].stamp, to) && e == LogEntry(said[i]) {
      NewestIsEntry(said, es, from.offset, b, i);
      InWindow(from, said[i], to);
    }
  }

  /** The result never fails to decode, and comes in ascending seconds without repeats. */
  lemma QueryAscends(said: seq<Said>, es: seq<Entry<Value>>, b: seq<Entry<Value>>,
                     from: Rfc3339.Stamp, to: Rfc3339.Stamp, max: int)
    requires Logs(said, es, from.offset) && BucketOf(b, es)
    ensures Sorted(MessageRange.Newest(b, Rfc3339.Key(from), Rfc3339.Key(to), max))
    ensures MessageRange.Spec(Some(b), Rfc3339.Key(from), Rfc3339.Key(to), max).Messages?
  {
    var w := MessageRange.Filter(b, Rfc3339.Key(from), Rfc3339.Key(to), |b|);
    var r := MessageRange.Newest(b, Rfc3339.Key(from), Rfc3339.Key(to), max);
    MessageRange.FilterSorted(b, Rfc3339.Key(from), Rfc3339.Key(to), |b|);
    forall j | 0 <= j < |r| ensures r[j].value.Json? {
      assert r[j] in w && r[j] in b[..|b|];
      var i := EntryIsNewest(said, es, from.offset, b, r[j]);
    }
  }

  /* ---------- end to end ---------- */

  /** Entry e is made of message i, the newest of its second. */
  ghost predicate From(said: seq<Said>, e: Entry<Value>, i: nat) {
    Newest(said, i) && e == LogEntry(said[i])
  }

  ghost predicate Sourced(said: seq<Said>, e: Entry<Value>) {
    exists i: nat :: From(said, e, i)
  }

  ghost function SourceOf(said: seq<Said>, e: Entry<Value>): (i: nat)
    requires Sourced(said, e)
    ensures From(said, e, i)
  {
    var i: nat :| From(said, e, i);
    i
  }

  /** Positions of the messages behind entries of the bucket. */
  lemma Sources(said: seq<Said>, es: seq<Entry<Value>>, offset: Rfc3339.Offset, b: seq<Entry<Value>>,
                r: seq<Entry<Value>>) returns (idx: seq<nat>)
    requires Logs(said, es, offset) && BucketOf(b, es) && forall e :: e in r ==> e in b
    ensures |idx| == |r| && forall k :: 0 <= k < |r| ==> From(said, r[k], idx[k])
  {
    forall k | 0 <= k < |r| ensures Sourced(said, r[k]) {
      assert r[k] in r;
      var i := EntryIsNewest(said, es, offset, b, r[k]);
      assert From(said, r[k], i);
    }
    idx := seq(|r|, k requires 0 <= k < |r| => SourceOf(said, r[k]));
  }

  function Cap(max: int): nat {
    if max <= 0 then 0 else max
  }

  /** What is left out of the last max of a sorted window sorts before all that is kept. */
  lemma LeftOutIsOlder(w: seq<Entry<Value>>, max: int, e: Entry<Value>)
    requires Sorted(w) && e in w && e !in MessageRange.Last(w, max)
    ensures |MessageRange.Last(w, max)| == Cap(max)
    ensures forall x :: x in MessageRange.Last(w, max) ==> Less(e.key, x.key)
  {
  }

  /** After every sequence of scribe lives there is a bucket to query. */
  lemma BucketIsThere(lives: seq<seq<Scribe.Event>>) returns (b: seq<Entry<Value>>)
    ensures Lists(b, Scribe.BucketAfter(lives, |lives|))
  {
    Scribe.LivesAreInvisible(lives, |lives|);
    b := Scribe.BucketExists(Scribe.Log(lives, |lives|), |Scribe.Log(lives, |lives|)|);
  }

  /** The positions idx answer the query: newest of their seconds, inside the window, ascending. */
  ghost predicate Answers(said: seq<Said>, from: Rfc3339.Stamp, to: Rfc3339.Stamp, idx: seq<nat>) {
    && (forall k :: 0 <= k < |idx| ==> Newest(said, idx[k]) && Between(from, said[idx[k]].stamp, to))
    && (forall k, l :: 0 <= k < l < |idx| ==> SecondOf(said[idx[k]]) < SecondOf(said[idx[l]]))
  }

  /** A newest message of the window that is not answered is older than every answered one,
      and then the answer is full. */
  ghost predicate LeavesOlder(said: seq<Said>, from: Rfc3339.Stamp, to: Rfc3339.Stamp, max: int, idx: seq<nat>, i: nat)
    requires i < |said| && forall k :: 0 <= k < |idx| ==> idx[k] < |said|
  {
    Newest(said, i) && Between(from, said[i].stamp, to) && i !in idx ==>
      |idx| == Cap(max) && forall k :: 0 <= k < |idx| ==> SecondOf(said[i]) < SecondOf(said[idx[k]])
  }

  function Texts(said: seq<Said>, idx: seq<nat>): seq<MessageRange.Message>
    requires forall k :: 0 <= k < |idx| ==> idx[k] < |said|
  {
    seq(|idx|, k requires 0 <= k < |idx| => said[idx[k]].msg)
  }

  lemma SourcesAnswer(said: seq<Said>, es: seq<Entry<Value>>, from: Rfc3339.Stamp, to: Rfc3339.Stamp,
                      r: seq<Entry<Value>>, idx: seq<nat>)
    requires Logs(said, es, from.offset) && to.offset == from.offset
    requires Rfc3339.Valid(from.civil) && Rfc3339.Valid(to.civil) && Sorted(r)
    requires |idx| == |r| && forall k :: 0 <= k < |r| ==> From(said, r[k], idx[k])
    requires forall k :: 0 <= k < |r| ==> MessageRange.In(r[k], Rfc3339.Key(from), Rfc3339.Key(to))
    ensures Answers(said, from, to, idx)
  {
    forall k | 0 <= k < |idx| ensures Between(from, said[idx[k]].stamp, to) {
      InWindow(from, said[idx[k]], to);
    }
    forall k, l | 0 <= k < l < |idx| ensures SecondOf(said[idx[k]]) < SecondOf(said[idx[l]]) {
      assert Less(r[k].key, r[l].key);
      Rfc3339.KeyOrder(said[idx[k]].stamp, said[idx[l]].stamp);
    }
  }

  lemma OnePerKey(said: seq<Said>, es: seq<Entry<Value>>, offset: Rfc3339.Offset, i: nat, j: nat)
    requires Logs(said, es, offset) && Newest(said, i) && Newest(said, j) && i != j
    ensures LogEntry(said[i]) != LogEntry(said[j])
  {
    Rfc3339.KeyOrder(said[i].stamp, said[j].stamp);
  }

  lemma NothingNewerMissing(said: seq<Said>, es: seq<Entry<Value>>, b: seq<Entry<Value>>,
                            from: Rfc3339.Stamp, to: Rfc3339.Stamp, max: int, idx: seq<nat>, i: nat)
    requires Logs(said, es, from.offset) && BucketOf(b, es) && to.offset == from.offset
    requires Rfc3339.Valid(from.civil) && Rfc3339.Valid(to.civil)
    requires var r := MessageRange.Newest(b, Rfc3339.Key(from), Rfc3339.Key(to), max);
             |idx| == |r| && forall k :: 0 <= k < |r| ==> From(said, r[k], idx[k])
    requires i < |said|
    ensures LeavesOlder(said, from, to, max, idx, i)
  {
    if !Newest(said, i) || !Between(from, said[i].stamp, to) || i in idx {
      return;
    }
    var f, t, e := Rfc3339.Key(from), Rfc3339.Key(to), LogEntry(said[i]);
    var w, r := MessageRange.Filter(b, f, t, |b|), MessageRange.Newest(b, f, t, max);
    QueryIsNewestPerSecond(said, es, b, from, to, e);
    MessageRange.FilterSorted(b, f, t, |b|);
    forall k | 0 <= k < |r| ensures r[k] != e {
      OnePerKey(said, es, from.offset, idx[k], i);
    }
    LeftOutIsOlder(w, max, e);
    forall k | 0 <= k < |idx| ensures SecondOf(said[i]) < SecondOf(said[idx[k]]) {
      assert r[k] in r;
      Rfc3339.KeyOrder(said[i].stamp, said[idx[k]].stamp);
    }
  }

  /** A query over the bucket of the flushed entries es answers with exactly the newest max of the
      messages that are last of their second within the window, oldest first. */
  lemma QueryAnswers(said: seq<Said>, es: seq<Entry<Value>>, b: seq<Entry<Value>>,
                     from: Rfc3339.Stamp, to: Rfc3339.Stamp, max: int) returns (idx: seq<nat>)
    requires Logs(said, es, from.offset) && BucketOf(b, es)
    requires to.offset == from.offset && Rfc3339.Valid(from.civil) && Rfc3339.Valid(to.civil)
    ensures Answers(said, from, to, idx) && |idx| <= Cap(max)
    ensures MessageRange.Spec(Some(b), Rfc3339.Key(from), Rfc3339.Key(to), max)
         == MessageRange.Messages(Texts(said, idx))
    ensures forall i :: 0 <= i < |said| ==> LeavesOlder(said, from, to, max, idx, i)
  {
    var f, t := Rfc3339.Key(from), Rfc3339.Key(to);
    var w, r := MessageRange.Filter(b, f, t, |b|), MessageRange.Newest(b, f, t, max);
    QueryAscends(said, es, b, from, to, max);
    forall e | e in r ensures e in b && MessageRange.In(e, f, t) {
      assert e in w;
      MessageRange.FilterMember(b, f, t, |b|, e);
    }
    idx := Sources(said, es, from.offset, b, r);
    SourcesAnswer(said, es, from, to, r, idx);
    forall i | 0 <= i < |said| ensures LeavesOlder(said, from, to, max, idx, i) {
      NothingNewerMissing(said, es, b, from, to, max, idx, i);
    }
    assert MessageRange.Decoded(r) == Texts(said, idx);
  }

  /** The log end to end, after any number of scribe lives, each any run of its events. */
  lemma QueryHistory(lives: seq<seq<Scribe.Event>>, said: seq<Said>, b: seq<Entry<Value>>,
                     from: Rfc3339.Stamp, to: Rfc3339.Stamp, max: int) returns (idx: seq<nat>)
    requires Lists(b, Scribe.BucketAfter(lives, |lives|))
    requires Logs(said, Scribe.Log(lives, |lives|), from.offset)
    requires to.offset == from.offset && Rfc3339.Valid(from.civil) && Rfc3339.Valid(to.civil)
    ensures Answers(said, from, to, idx) && |idx| <= Cap(max)
    ensures MessageRange.Spec(Some(b), Rfc3339.Key(from), Rfc3339.Key(to), max)
         == MessageRange.Messages(Texts(said, idx))
    ensures forall i :: 0 <= i < |said| ==> LeavesOlder(said, from, to, max, idx, i)
  {
    Scribe.LivesAreInvisible(lives, |lives|);
    idx := QueryAnswers(said, Scribe.Log(lives, |lives|), b, from, to, max);
  }
}
