/** The inproc addresses of rivers (stream/river/bus.go, responder.go, surveyor.go). */
module Address {
  import opened Wire

  const SCHEME := "inproc://"

  predicate SlashFree(s: string) {
    '/' !in s
  }

  /** Bucket names, each followed by a slash (responder.go:92-97). */
  function Join(path: seq<string>): string {
    if path == [] then "" else path[0] + ("/" + Join(path[1..]))
  }

  /** The listen and dial string of river number n in a bucket. */
  function Addr(path: seq<string>, n: nat): string {
    SCHEME + (Join(path) + FormatUint(n))
  }

  /** NewBus listens on a Sprintf of the three parts (bus.go:88-93) and dials the concatenation
      its cursors build (bus.go:46-58); both are Addr. */
  lemma ListenIsDial(stream: string, user: string, n: nat)
    ensures SCHEME + stream + "/" + user + "/" + FormatUint(n) == Addr([stream, user], n)
    ensures (SCHEME + stream + "/") + (user + "/") + FormatUint(n) == Addr([stream, user], n)
  {
    var p := [stream, user];
    assert p[1..] == [user] && p[1..][1..] == [];
    assert Join(p[1..]) == user + ("/" + "");
  }

  /** Only the last name of the path may hold a slash: stream and convo ids are UUIDs, user
      names are anything. */
  predicate Plain(path: seq<string>) {
    |path| > 0 && forall i :: 0 <= i < |path| - 1 ==> SlashFree(path[i])
  }

  lemma {:induction false} SplitFirst(a: string, s: string, b: string, t: string)
    requires SlashFree(a) && SlashFree(b) && a + ("/" + s) == b + ("/" + t)
    ensures a == b && s == t
  {
    var x, y := a + ("/" + s), b + ("/" + t);
    assert x[|a|] == '/' && y[|b|] == '/';
    assert (forall i :: 0 <= i < |a| ==> x[i] == a[i]) && (forall i :: 0 <= i < |b| ==> y[i] == b[i]);
    assert |a| == |b|;
    assert x[..|a|] == a && y[..|b|] == b;
    assert x[|a| + 1..] == s && y[|b| + 1..] == t;
  }

  lemma SplitLast(a: string, s: string, b: string, t: string)
    requires SlashFree(s) && SlashFree(t) && a + ("/" + s) == b + ("/" + t)
    ensures a == b && s == t
  {
    var x, y := a + ("/" + s), b + ("/" + t);
    assert x[|a|] == '/' && y[|b|] == '/';
    assert forall i :: |a| < i < |x| ==> x[i] == s[i - |a| - 1];
    assert forall i :: |b| < i < |y| ==> y[i] == t[i - |b| - 1];
    assert |a| == |b|;
    assert x[..|a|] == a && y[..|b|] == b;
    assert x[|a| + 1..] == s && y[|b| + 1..] == t;
  }

  lemma {:induction false} JoinInjective(p: seq<string>, q: seq<string>)
    requires Plain(p) && Plain(q) && |p| == |q| && Join(p) == Join(q)
    ensures p == q
  {
    if |p| == 1 {
      assert p[1..] == [] && q[1..] == [];
      assert p[0] + "/" == p[0] + ("/" + Join(p[1..])) == q[0] + "/";
      assert (p[0] + "/")[..|p[0]|] == p[0] && (q[0] + "/")[..|q[0]|] == q[0];
      assert p == [p[0]] && q == [q[0]];
    } else {
      SplitFirst(p[0], Join(p[1..]), q[0], Join(q[1..]));
      JoinInjective(p[1..], q[1..]);
      assert p == [p[0]] + p[1..] && q == [q[0]] + q[1..];
    }
  }

  lemma {:induction false} DigitsNoSlash(n: nat)
    ensures SlashFree(FormatUint(n))
  {
  }

  /** The joined path, without its closing slash. */
  lemma {:induction false} JoinEndsInSlash(p: seq<string>) returns (front: string)
    requires p != []
    ensures Join(p) == front + "/"
  {
    if |p| == 1 {
      front := p[0];
      assert p[1..] == [];
    } else {
      var rest := JoinEndsInSlash(p[1..]);
      front := p[0] + "/" + rest;
    }
  }

  lemma TailSplits(p: seq<string>, s: string, q: seq<string>, t: string)
    requires p != [] && q != [] && SlashFree(s) && SlashFree(t)
    requires SCHEME + (Join(p) + s) == SCHEME + (Join(q) + t)
    ensures Join(p) == Join(q) && s == t
  {
    var x, y := Join(p) + s, Join(q) + t;
    assert (SCHEME + x)[|SCHEME|..] == x && (SCHEME + y)[|SCHEME|..] == y;
    var a := JoinEndsInSlash(p);
    var b := JoinEndsInSlash(q);
    assert x == a + ("/" + s) && y == b + ("/" + t);
    SplitLast(a, s, b, t);
  }

  /** The number and the path text can be read off an address. */
  lemma AddrSplits(p: seq<string>, m: nat, q: seq<string>, n: nat)
    requires p != [] && q != []
    ensures Addr(p, m) == Addr(q, n) <==> Join(p) == Join(q) && m == n
  {
    if Addr(p, m) == Addr(q, n) {
      DigitsNoSlash(m);
      DigitsNoSlash(n);
      TailSplits(p, FormatUint(m), q, FormatUint(n));
      FormatInjective(m, n);
    }
  }

  /** A river in the database: a bus of a stream, or a responder below the hangup bucket. */
  datatype River =
    | Bus(stream: string, user: string, n: nat)
    | Hangup(of: string, user: string, n: nat)   // of: a stream or convo id, "responders" or the scribe bucket

  function PathOf(r: River): seq<string> {
    match r
    case Bus(stream, user, _) => [stream, user]
    case Hangup(of, user, _) => ["hangups", of, user]
  }

  function AddrOf(r: River): string {
    Addr(PathOf(r), r.n)
  }

  predicate Named(r: River) {
    match r
    case Bus(stream, _, _) => SlashFree(stream) && stream != "hangups"
    case Hangup(of, _, _) => SlashFree(of)
  }

  lemma Rejoin(stream: string, user: string, of: string, v: string)
    requires SlashFree(stream)
    ensures Join([stream, user]) == Join(["hangups", of, v]) <==> stream == "hangups" && user == of + ("/" + v)
  {
    var p, q := [stream, user], ["hangups", of, v];
    assert p[1..] == [user] && q[1..] == [of, v] && q[1..][1..] == [v] && [user][1..] == [] && [v][1..] == [];
    assert Join([user]) == user + ("/" + "") == user + "/";
    assert Join([v]) == v + ("/" + "") == v + "/";
    assert Join([of, v]) == of + ("/" + (v + "/")) == (of + ("/" + v)) + "/";
    if Join(p) == Join(q) {
      SplitFirst(stream, Join([user]), "hangups", Join([of, v]));
      var u := of + ("/" + v);
      assert (user + "/")[..|user|] == user && (u + "/")[..|u|] == u;
    }
  }

  /** Exactly when a bus and a responder would share an address. */
  lemma BusMeetsHangup(b: River, h: River)
    requires b.Bus? && h.Hangup? && SlashFree(b.stream)
    ensures AddrOf(b) == AddrOf(h) <==> b.stream == "hangups" && b.user == h.of + ("/" + h.user) && b.n == h.n
  {
    AddrSplits(PathOf(b), b.n, PathOf(h), h.n);
    Rejoin(b.stream, b.user, h.of, h.user);
  }

  /** Distinct rivers have distinct addresses, for user names of any kind. */
  lemma AddressesInjective(a: River, b: River)
    requires Named(a) && Named(b)
    ensures AddrOf(a) == AddrOf(b) <==> a == b
  {
    if a.Bus? == b.Bus? {
      AddrSplits(PathOf(a), a.n, PathOf(b), b.n);
      if AddrOf(a) == AddrOf(b) {
        assert SlashFree("hangups");
        JoinInjective(PathOf(a), PathOf(b));
        assert PathOf(a)[0] == PathOf(b)[0] && PathOf(a)[1] == PathOf(b)[1];
        assert a.Hangup? ==> PathOf(a)[2] == PathOf(b)[2];
      }
    } else if a.Bus? {
      BusMeetsHangup(a, b);
    } else {
      BusMeetsHangup(b, a);
    }
  }

  /** Within one stream, whatever its id, an address tells user and number. */
  lemma InStreamInjective(stream: string, u: string, m: nat, v: string, n: nat)
    ensures AddrOf(Bus(stream, u, m)) == AddrOf(Bus(stream, v, n)) <==> u == v && m == n
  {
    var p, q := [stream, u], [stream, v];
    AddrSplits(p, m, q, n);
    assert p[1..] == [u] && q[1..] == [v] && [u][1..] == [] && [v][1..] == [];
    assert Join([u]) == u + ("/" + "") && Join([v]) == v + ("/" + "");
    if Join(p) == Join(q) {
      assert Join(p) == stream + ("/" + Join([u])) && Join(q) == stream + ("/" + Join([v]));
      assert Join(p)[|stream| + 1..] == u + ("/" + "") && Join(q)[|stream| + 1..] == v + ("/" + "");
      assert (u + ("/" + ""))[..|u|] == u && (v + ("/" + ""))[..|v|] == v;
    }
  }

  /** Slash-free ids are needed: a slash in the middle can be read two ways. */
  lemma SlashInIdCollides(user: string, n: nat)
    ensures var a, b := Hangup("x/y", user, n), Hangup("x", "y/" + user, n);
            a != b && AddrOf(a) == AddrOf(b)
  {
    var v := "y/" + user;
    assert ["hangups", "x/y", user][1..] == ["x/y", user] && ["x/y", user][1..] == [user] && [user][1..] == [];
    assert ["hangups", "x", v][1..] == ["x", v] && ["x", v][1..] == [v] && [v][1..] == [];
    assert Join([user]) == user + ("/" + "");
    assert Join([v]) == v + ("/" + "");
    assert Join(["x/y", user]) == "x/y" + ("/" + (user + ("/" + "")));
    assert Join(["x", v]) == "x" + ("/" + (v + ("/" + "")));
    assert Join(["x/y", user]) == Join(["x", v]);
  }
}
