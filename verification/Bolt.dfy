/** BoltDB buckets as the code uses them: keys in byte order, and a cursor over them. */
module Bolt {
  import opened Options

  /** bytes.Compare(a, b) < 0 */
  predicate Less(a: string, b: string) {
    b != [] && (a == [] || a[0] < b[0] || (a[0] == b[0] && Less(a[1..], b[1..])))
  }

  lemma {:induction false} LessTrans(a: string, b: string, c: string)
    requires Less(a, b) && Less(b, c)
    ensures Less(a, c)
  {
    if a != [] && a[0] == b[0] && b[0] == c[0] {
      LessTrans(a[1..], b[1..], c[1..]);
    }
  }

  lemma {:induction false} LessTotal(a: string, b: string)
    ensures Less(a, b) || a == b || Less(b, a)
    ensures !(Less(a, b) && Less(b, a)) && !Less(a, a)
  {
    if a != [] && b != [] && a[0] == b[0] {
      LessTotal(a[1..], b[1..]);
      if a[1..] == b[1..] {
        assert a == [a[0]] + a[1..] && b == [b[0]] + b[1..];
      }
    }
    if a != [] {
      LessTotal(a[1..], a[1..]);
    }
  }

  /** Equal-length prefixes are compared first. */
  lemma {:induction false} LessPrefix(p: string, s: string, q: string, t: string)
    requires |p| == |q|
    ensures Less(p + s, q + t) <==> Less(p, q) || (p == q && Less(s, t))
  {
    if p == [] {
      assert p + s == s && q + t == t;
    } else {
      assert (p + s)[1..] == p[1..] + s && (q + t)[1..] == q[1..] + t;
      LessPrefix(p[1..], s, q[1..], t);
      assert p == [p[0]] + p[1..] && q == [q[0]] + q[1..];
      assert (p + s)[0] == p[0] && (q + t)[0] == q[0];
    }
  }

  datatype Entry<V> = Entry(key: string, value: V)

  /** The entries of a bucket in the order a cursor meets them. */
  ghost predicate Sorted<V>(b: seq<Entry<V>>) {
    forall i, j :: 0 <= i < j < |b| ==> Less(b[i].key, b[j].key)
  }

  ghost predicate HasKey<V>(b: seq<Entry<V>>, k: string) {
    exists i :: 0 <= i < |b| && b[i].key == k
  }

  /** Every entry has the value m gives its key. */
  ghost predicate Holds<V>(b: seq<Entry<V>>, m: map<string, V>) {
    forall i :: 0 <= i < |b| ==> b[i].key in m && m[b[i].key] == b[i].value
  }

  /** b lists the contents m. */
  ghost predicate Lists<V>(b: seq<Entry<V>>, m: map<string, V>) {
    && Sorted(b) && Holds(b, m)
    && (forall k :: k in m ==> HasKey(b, k))
  }

  /** Where a key is or would go. */
  function Place<V>(b: seq<Entry<V>>, k: string, n: nat): (p: nat)
    requires n <= |b|
    ensures p <= n
  {
    if n == 0 then 0 else if Less(b[n - 1].key, k) then n else Place(b, k, n - 1)
  }

  /** Bucket.Put on the listing. */
  function Insert<V>(b: seq<Entry<V>>, k: string, v: V): seq<Entry<V>> {
    var p := Place(b, k, |b|);
    if p < |b| && b[p].key == k then b[p := Entry(k, v)]
    else b[..p] + [Entry(k, v)] + b[p..]
  }

  lemma {:induction false} PlaceSplits<V>(b: seq<Entry<V>>, k: string, n: nat)
    requires Sorted(b) && n <= |b| && forall i :: n <= i < |b| ==> !Less(b[i].key, k)
    ensures var p := Place(b, k, n);
            && (forall i :: 0 <= i < p ==> Less(b[i].key, k))
            && (forall i :: p <= i < |b| ==> !Less(b[i].key, k))
  {
    if n > 0 {
      if Less(b[n - 1].key, k) {
        forall i | 0 <= i < n ensures Less(b[i].key, k) {
          if i < n - 1 { LessTrans(b[i].key, b[n - 1].key, k); }
        }
      } else {
        PlaceSplits(b, k, n - 1);
      }
    }
  }

  /** k goes to position p, over an equal key if there is one. */
  ghost predicate Fits<V>(b: seq<Entry<V>>, k: string, p: nat) {
    && p <= |b|
    && (forall i :: 0 <= i < p ==> Less(b[i].key, k))
    && (forall i :: p <= i < |b| && !(i == p && b[p].key == k) ==> Less(k, b[i].key))
  }

  lemma PlaceFits<V>(b: seq<Entry<V>>, k: string)
    requires Sorted(b)
    ensures Fits(b, k, Place(b, k, |b|))
  {
    var p := Place(b, k, |b|);
    PlaceSplits(b, k, |b|);
    forall i | p <= i < |b| && !(i == p && b[p].key == k) ensures Less(k, b[i].key) {
      LessTotal(b[i].key, k);
      if i > p { assert Less(b[p].key, b[i].key); }
    }
  }

  lemma InsertHas<V>(b: seq<Entry<V>>, k: string, v: V, x: string)
    requires HasKey(b, x) || x == k
    ensures HasKey(Insert(b, k, v), x)
  {
    var p, c := Place(b, k, |b|), Insert(b, k, v);
    if x == k {
      assert c[p].key == k;
    } else {
      var i :| 0 <= i < |b| && b[i].key == x;
      var j := if |c| == |b| || i < p then i else i + 1;
      assert c[j] == b[i];
    }
  }

  lemma OtherKey<V>(b: seq<Entry<V>>, k: string, p: nat, j: nat)
    requires Fits(b, k, p) && j < |b| && (j < p || b[p].key != k || j > p)
    ensures b[j].key != k
  {
    LessTotal(k, k);
  }

  lemma Replaced<V>(b: seq<Entry<V>>, m: map<string, V>, k: string, v: V, p: nat)
    requires Holds(b, m) && Fits(b, k, p) && p < |b|
    ensures Holds(b[p := Entry(k, v)], m[k := v])
  {
    forall j | 0 <= j < |b| && j != p ensures b[j].key != k { OtherKey(b, k, p, j); }
  }

  lemma Inserted<V>(b: seq<Entry<V>>, m: map<string, V>, k: string, v: V, p: nat)
    requires Holds(b, m) && Fits(b, k, p) && (p < |b| ==> b[p].key != k)
    ensures Holds(b[..p] + [Entry(k, v)] + b[p..], m[k := v])
  {
    var c := b[..p] + [Entry(k, v)] + b[p..];
    forall i | 0 <= i < |c| ensures c[i].key in m[k := v] && m[k := v][c[i].key] == c[i].value {
      if i != p {
        var j := if i < p then i else i - 1;
        assert c[i] == b[j];
        OtherKey(b, k, p, j);
      }
    }
  }

  /** Putting keeps the listing sorted and updates exactly one key. */
  lemma InsertLists<V>(b: seq<Entry<V>>, m: map<string, V>, k: string, v: V)
    requires Lists(b, m)
    ensures Lists(Insert(b, k, v), m[k := v])
  {
    var p, c := Place(b, k, |b|), Insert(b, k, v);
    PlaceFits(b, k);
    InsertSorted(b, k, v, p, c);
    forall x | x in m[k := v] ensures HasKey(c, x) { InsertHas(b, k, v, x); }
    if p < |b| && b[p].key == k { Replaced(b, m, k, v, p); } else { Inserted(b, m, k, v, p); }
  }

  lemma InsertSorted<V>(b: seq<Entry<V>>, k: string, v: V, p: nat, c: seq<Entry<V>>)
    requires Sorted(b) && Fits(b, k, p)
    requires c == if p < |b| && b[p].key == k then b[p := Entry(k, v)] else b[..p] + [Entry(k, v)] + b[p..]
    ensures Sorted(c)
  {
  }

  /** A cursor: its position, |b| past the end. */
  class Cursor<V> {
    const b: seq<Entry<V>>
    var at: int

    constructor (b: seq<Entry<V>>)
      ensures this.b == b
    {
      this.b := b;
      at := -1;
    }

    /** The first entry with a key at or after k, if there is one. */
    method Seek(k: string) returns (e: Option<Entry<V>>)
      modifies this
      ensures 0 <= at <= |b|
      ensures forall i :: 0 <= i < at ==> Less(b[i].key, k)
      ensures at < |b| ==> !Less(b[at].key, k) && e == Some(b[at])
      ensures at == |b| ==> e == None
    {
      at := 0;
      while at < |b| && Less(b[at].key, k)
        invariant 0 <= at <= |b|
        invariant forall i :: 0 <= i < at ==> Less(b[i].key, k)
      {
        at := at + 1;
      }
      e := if at < |b| then Some(b[at]) else None;
    }

    /** The entry before; None at the first one.  After a Seek past the end, the last one. */
    method Prev() returns (e: Option<Entry<V>>)
      requires 0 <= at <= |b|
      modifies this
      ensures at == old(at) - 1
      ensures e == if old(at) > 0 then Some(b[at]) else None
    {
      at := at - 1;
      e := if at >= 0 then Some(b[at]) else None;
    }
  }
}
