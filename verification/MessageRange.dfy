/** GetMessageRange (convo/message.go): the cursor walk against a filter. */
module MessageRange {
  import opened Options
  import opened Bolt

  datatype Message = Message(sender: string, content: string)

  /** A stored value: JSON of a message, or bytes that do not decode. */
  datatype Value = Json(msg: Message) | Garbage

  datatype Result = Messages(msgs: seq<Message>) | DecodeError | NoSuchConvo

  predicate In(e: Entry<Value>, from: string, to: string) {
    !Less(e.key, from) && !Less(to, e.key)
  }

  /** Of the first n entries, those with from <= key <= to. */
  function Filter(b: seq<Entry<Value>>, from: string, to: string, n: nat): seq<Entry<Value>>
    requires n <= |b|
  {
    if n == 0 then [] else Filter(b, from, to, n - 1) + if In(b[n - 1], from, to) then [b[n - 1]] else []
  }

  function Last<T>(s: seq<T>, max: int): seq<T> {
    if max <= 0 then [] else if |s| <= max then s else s[|s| - max..]
  }

  predicate Decodes(es: seq<Entry<Value>>) {
    forall i :: 0 <= i < |es| ==> es[i].value.Json?
  }

  function Decoded(es: seq<Entry<Value>>): seq<Message>
    requires Decodes(es)
  {
    seq(|es|, i requires 0 <= i < |es| => es[i].value.msg)
  }

  /** The newest max entries of the window, oldest first. */
  function Newest(b: seq<Entry<Value>>, from: string, to: string, max: int): seq<Entry<Value>> {
    Last(Filter(b, from, to, |b|), max)
  }

  function Spec(bucket: Option<seq<Entry<Value>>>, from: string, to: string, max: int): Result {
    if bucket.None? then NoSuchConvo
    else
      var es := Newest(bucket.value, from, to, max);
      if Decodes(es) then Messages(Decoded(es)) else DecodeError
  }

  /* ---------- the filter, sliced ---------- */

  /** Entries lo..hi are all inside. */
  lemma {:induction false} FilterIn(b: seq<Entry<Value>>, from: string, to: string, lo: nat, hi: nat)
    requires lo <= hi <= |b| && forall i :: lo <= i < hi ==> In(b[i], from, to)
    ensures Filter(b, from, to, hi) == Filter(b, from, to, lo) + b[lo..hi]
  {
    if lo < hi {
      FilterIn(b, from, to, lo, hi - 1);
      assert b[lo..hi] == b[lo..hi - 1] + [b[hi - 1]];
    }
  }

  /** Entries lo..hi are all outside. */
  lemma {:induction false} FilterOut(b: seq<Entry<Value>>, from: string, to: string, lo: nat, hi: nat)
    requires lo <= hi <= |b| && forall i :: lo <= i < hi ==> !In(b[i], from, to)
    ensures Filter(b, from, to, hi) == Filter(b, from, to, lo)
  {
    if lo < hi {
      FilterOut(b, from, to, lo, hi - 1);
    }
  }

  /** hi ends the window: what is below is at most to, what is above is beyond. */
  ghost predicate EndsAt(b: seq<Entry<Value>>, to: string, hi: nat) {
    && hi <= |b|
    && (forall i :: 0 <= i < hi ==> !Less(to, b[i].key))
    && (forall i :: hi <= i < |b| ==> Less(to, b[i].key))
  }

  /** The walk has taken k..hi and may stop here: the window begins, the bucket begins, or
      max is reached.  Then it has taken exactly the newest entries. */
  lemma WalkDone(b: seq<Entry<Value>>, from: string, to: string, max: int, k: nat, hi: nat)
    requires Sorted(b) && EndsAt(b, to, hi) && k <= hi
    requires forall i :: k <= i < hi ==> !Less(b[i].key, from)
    requires hi - k <= if max <= 0 then 0 else max
    requires k == 0 || hi - k >= max || Less(b[k - 1].key, from)
    ensures Newest(b, from, to, max) == b[k..hi]
  {
    FilterOut(b, from, to, hi, |b|);
    FilterIn(b, from, to, k, hi);
    if k == 0 || (hi - k < max && Less(b[k - 1].key, from)) {
      forall i | 0 <= i < k ensures !In(b[i], from, to) {
        if i < k - 1 { LessTrans(b[i].key, b[k - 1].key, from); }
      }
      FilterOut(b, from, to, 0, k);
    }
  }

  /** An undecodable entry among the newest makes the whole query fail. */
  lemma WalkFails(b: seq<Entry<Value>>, from: string, to: string, max: int, k: nat, hi: nat)
    requires Sorted(b) && EndsAt(b, to, hi) && k < hi && hi - k <= max
    requires forall i :: k <= i < hi ==> !Less(b[i].key, from)
    requires b[k].value.Garbage?
    ensures !Decodes(Newest(b, from, to, max))
  {
    FilterOut(b, from, to, hi, |b|);
    FilterIn(b, from, to, k, hi);
    var w, es := Filter(b, from, to, |b|), Newest(b, from, to, max);
    var i := |es| - (hi - k);
    assert es[i] == w[|w| - (hi - k)] == b[k..hi][0];
  }

  /* ---------- the query ---------- */

  function Reversed<T>(s: seq<T>): seq<T> {
    seq(|s|, i requires 0 <= i < |s| => s[|s| - 1 - i])
  }

  /** message.go:93-98 */
  method Reverse(a: array<Message>)
    modifies a
    ensures a[..] == Reversed(old(a[..]))
  {
    var n := a.Length;
    var mp := n / 2;
    for i := 0 to mp
      invariant forall j :: 0 <= j < i ==> a[j] == old(a[n - 1 - j]) && a[n - 1 - j] == old(a[j])
      invariant forall j :: i <= j < n - i ==> a[j] == old(a[j])
    {
      a[n - i - 1], a[i] := a[i], a[n - i - 1];
    }
  }

  method Turned(result: seq<Message>) returns (s: seq<Message>)
    ensures s == Reversed(result)
  {
    var a := new Message[|result|](i requires 0 <= i < |result| => result[i]);
    assert a[..] == result;
    Reverse(a);
    s := a[..];
  }

  /** The position the two switch cases settle on (message.go:60-80): the last entry not
      beyond to, if there is one. */
  method SeekEnd(c: Cursor<Value>, to: string) returns (e: Option<Entry<Value>>, hi: nat)
    requires Sorted(c.b)
    modifies c
    ensures EndsAt(c.b, to, hi) && c.at == hi - 1
    ensures e == if hi > 0 then Some(c.b[hi - 1]) else None
  {
    e := c.Seek(to);
    var p := c.at;
    forall i | 0 <= i < p ensures !Less(to, c.b[i].key) { LessTotal(c.b[i].key, to); }
    forall i | p < i < |c.b| ensures Less(to, c.b[i].key) {
      LessTotal(c.b[p].key, to);
      assert Less(c.b[p].key, c.b[i].key);
      if Less(to, c.b[p].key) { LessTrans(to, c.b[p].key, c.b[i].key); }
    }
    if e.Some? && !Less(to, e.value.key) {
      hi := p + 1;
    } else {
      hi := p;
      e := c.Prev();
    }
  }

  /** The backward walk (message.go:83-91) from the entry at hi - 1. */
  method Walk(c: Cursor<Value>, start: Option<Entry<Value>>, from: string, max: int, hi: nat)
    returns (ok: bool, result: seq<Message>)
    requires hi <= |c.b| && c.at == hi - 1 && start == if hi > 0 then Some(c.b[hi - 1]) else None
    modifies c
    ensures -1 <= c.at < |c.b| && c.at < hi && |result| == hi - 1 - c.at
    ensures forall i :: c.at < i < hi ==> !Less(c.b[i].key, from) && c.b[i].value.Json?
    ensures forall j :: 0 <= j < |result| ==> result[j] == c.b[hi - 1 - j].value.msg
    ensures if ok then |result| <= (if max <= 0 then 0 else max)
                       && (c.at == -1 || |result| >= max || Less(c.b[c.at].key, from))
            else c.at >= 0 && |result| < max && !Less(c.b[c.at].key, from) && c.b[c.at].value.Garbage?
  {
    var e := start;
    result := [];
    while e.Some? && |result| < max && !Less(e.value.key, from)
      invariant -1 <= c.at < hi && |result| == hi - 1 - c.at <= if max <= 0 then 0 else max
      invariant e == if c.at >= 0 then Some(c.b[c.at]) else None
      invariant forall i :: c.at < i < hi ==> !Less(c.b[i].key, from) && c.b[i].value.Json?
      invariant forall j :: 0 <= j < |result| ==> result[j] == c.b[hi - 1 - j].value.msg
      decreases c.at
    {
      if e.value.value.Garbage? {
        return false, result;
      }
      result := result + [e.value.value.msg];
      e := c.Prev();
    }
    ok := true;
  }

  lemma Collected(b: seq<Entry<Value>>, k: nat, hi: nat, result: seq<Message>)
    requires k <= hi <= |b| && |result| == hi - k
    requires forall i :: k <= i < hi ==> b[i].value.Json?
    requires forall j :: 0 <= j < |result| ==> result[j] == b[hi - 1 - j].value.msg
    ensures Decodes(b[k..hi]) && Reversed(result) == Decoded(b[k..hi])
  {
  }

  method GetMessageRange(bucket: Option<seq<Entry<Value>>>, from: string, to: string, max: int) returns (r: Result)
    requires bucket.Some? ==> Sorted(bucket.value)
    ensures r == Spec(bucket, from, to, max)
    ensures r.NoSuchConvo? <==> bucket.None?
    ensures r.DecodeError? <==>
      bucket.Some? && exists e :: e in Newest(bucket.value, from, to, max) && e.value == Garbage
    ensures r.Messages? ==>
      var es := Newest(bucket.value, from, to, max);
      |r.msgs| == |es| && forall i :: 0 <= i < |es| ==> es[i].value == Json(r.msgs[i])
  {
    if bucket.None? {
      return NoSuchConvo;
    }
    var b := bucket.value;
    var c := new Cursor(b);
    var e, hi := SeekEnd(c, to);
    if e.None? || Less(e.value.key, from) {
      WalkDone(b, from, to, max, hi, hi);
      return Messages([]);
    }
    var ok, result := Walk(c, e, from, max, hi);
    if !ok {
      WalkFails(b, from, to, max, c.at, hi);
      return DecodeError;
    }
    WalkDone(b, from, to, max, c.at + 1, hi);
    Collected(b, c.at + 1, hi, result);
    var oldestFirst := Turned(result);
    r := Messages(oldestFirst);
  }

  /* ---------- what the result is ---------- */

  /** The filter keeps exactly the entries of the window. */
  lemma {:induction false} FilterMember(b: seq<Entry<Value>>, from: string, to: string, n: nat, e: Entry<Value>)
    requires n <= |b|
    ensures e in Filter(b, from, to, n) <==> e in b[..n] && In(e, from, to)
  {
    if n > 0 {
      FilterMember(b, from, to, n - 1, e);
      assert b[..n] == b[..n - 1] + [b[n - 1]];
    }
  }

  lemma {:induction false} FilterSorted(b: seq<Entry<Value>>, from: string, to: string, n: nat)
    requires Sorted(b) && n <= |b|
    ensures Sorted(Filter(b, from, to, n))
    ensures forall e :: e in Filter(b, from, to, n) ==> e in b[..n]
  {
    forall e | e in Filter(b, from, to, n) ensures e in b[..n] { FilterMember(b, from, to, n, e); }
    if n > 0 {
      FilterSorted(b, from, to, n - 1);
      var f := Filter(b, from, to, n - 1);
      forall i | 0 <= i < |f| ensures Less(f[i].key, b[n - 1].key) {
        assert f[i] in b[..n - 1];
        var j :| 0 <= j < n - 1 && b[j] == f[i];
      }
    }
  }
}
