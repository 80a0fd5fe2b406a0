/** DELETE /profile (rest/profile.go) and its twin DELETE /admin/users/:user_id: hang up
    everything the user has connected, and only then delete the user. */
module Deletion {
  import opened Wire
  import opened Hangup
  import Survey

  /** The registry: the registrations that have a row, by bucket. */
  type Registry = map<Path, set<nat>>

  /** Bucket paths of the user's connections (profile.go:90-142). */
  function UserPaths(user: string, convos: seq<string>, streams: seq<string>): seq<Path> {
    seq(|convos|, i requires 0 <= i < |convos| => ["hangups", convos[i], user])
    + seq(|streams|, i requires 0 <= i < |streams| => ["hangups", streams[i], user])
    + [["hangups", "responders", user]]
  }

  /** They are those of the user's convos, streams and notifs. */
  lemma UserPathsIff(user: string, convos: seq<string>, streams: seq<string>, p: Path)
    ensures p in UserPaths(user, convos, streams)
       <==> p == ["hangups", "responders", user]
            || exists id :: (id in convos || id in streams) && p == ["hangups", id, user]
  {
    var paths := UserPaths(user, convos, streams);
    if p in paths {
      var i :| 0 <= i < |paths| && paths[i] == p;
      var id := if i < |convos| then convos[i] else if i < |convos| + |streams| then streams[i - |convos|] else "";
      assert i < |paths| - 1 ==> (id in convos || id in streams) && p == ["hangups", id, user];
    }
    if id :| id in convos && p == ["hangups", id, user] {
      var i :| 0 <= i < |convos| && convos[i] == id;
      assert paths[i] == p;
    }
    if id :| id in streams && p == ["hangups", id, user] {
      var i :| 0 <= i < |streams| && streams[i] == id;
      assert paths[|convos| + i] == p;
    }
    assert paths[|paths| - 1] == ["hangups", "responders", user];
  }

  /** The first n of the paths, without the ones that have no bucket. */
  function Connected(rows: Registry, paths: seq<Path>, n: nat): seq<Path>
    requires n <= |paths|
  {
    if n == 0 then []
    else Connected(rows, paths, n - 1) + if paths[n - 1] in rows then [paths[n - 1]] else []
  }

  lemma {:induction false} ConnectedMember(rows: Registry, paths: seq<Path>, n: nat, p: Path)
    requires n <= |paths|
    ensures p in Connected(rows, paths, n) <==> p in paths[..n] && p in rows
  {
    if n > 0 {
      ConnectedMember(rows, paths, n - 1, p);
      assert paths[..n] == paths[..n - 1] + [paths[n - 1]];
    }
  }

  /** Collects a survey for each bucket that exists: convos, then streams, then notifs. */
  method PrepareSurveys(rows: Registry, user: string, convos: seq<string>, streams: seq<string>)
    returns (wants: seq<set<nat>>, cleanup: seq<Path>)
    ensures var paths := UserPaths(user, convos, streams);
            cleanup == Connected(rows, paths, |paths|)
    ensures |wants| == |cleanup|
    ensures forall j :: 0 <= j < |cleanup| ==> cleanup[j] in rows && wants[j] == Nums(rows[cleanup[j]])
  {
    ghost var paths := UserPaths(user, convos, streams);
    wants, cleanup := [], [];
    for i := 0 to |convos|
      invariant cleanup == Connected(rows, paths, i)
      invariant |wants| == |cleanup|
      invariant forall j :: 0 <= j < |cleanup| ==> cleanup[j] in rows && wants[j] == Nums(rows[cleanup[j]])
    {
      var bkts := ["hangups", convos[i], user];
      assert paths[i] == bkts;
      if bkts in rows {
        wants, cleanup := wants + [Nums(rows[bkts])], cleanup + [bkts];
      }
    }
    for i := 0 to |streams|
      invariant cleanup == Connected(rows, paths, |convos| + i)
      invariant |wants| == |cleanup|
      invariant forall j :: 0 <= j < |cleanup| ==> cleanup[j] in rows && wants[j] == Nums(rows[cleanup[j]])
    {
      var bkts := ["hangups", streams[i], user];
      assert paths[|convos| + i] == bkts;
      if bkts in rows {
        wants, cleanup := wants + [Nums(rows[bkts])], cleanup + [bkts];
      }
    }
    var bkts := ["hangups", "responders", user];
    assert paths[|paths| - 1] == bkts;
    if bkts in rows {
      wants, cleanup := wants + [Nums(rows[bkts])], cleanup + [bkts];
    }
  }

  /** What the select of the counting loop yields: the result of survey j, or a timeout. */
  datatype Arrival = Result(j: nat, out: Survey.Outcome) | TimedOut

  /** CheckMissing returns nil: the bucket is there and has no row (missing.go:46-75). */
  predicate Cleared(rows: Registry, p: Path) {
    p in rows && rows[p] == {}
  }

  predicate Passes(a: Arrival, cleanup: seq<Path>, view: Registry) {
    && a.Result? && a.j < |cleanup|
    && (a.out.Answered? || (a.out.Missing? && Cleared(view, cleanup[a.j])))
  }

  /** The counting loop (profile.go:182-221).  views[i] is the registry at the i-th check. */
  method AwaitAll(cleanup: seq<Path>, arrivals: seq<Arrival>, views: seq<Registry>) returns (ok: bool)
    requires |arrivals| == |views| == |cleanup|
    requires forall i :: 0 <= i < |arrivals| && arrivals[i].Result? ==> arrivals[i].j < |cleanup|
    ensures ok <==> forall i :: 0 <= i < |cleanup| ==> Passes(arrivals[i], cleanup, views[i])
    ensures ok <==> forall i :: 0 <= i < |cleanup| ==>
      && arrivals[i].Result?
      && (arrivals[i].out == Survey.Answered
          || (arrivals[i].out.Missing? && var p := cleanup[arrivals[i].j]; p in views[i] && views[i][p] == {}))
  {
    for i := 0 to |cleanup|
      invariant forall n :: 0 <= n < i ==> Passes(arrivals[n], cleanup, views[n])
    {
      match arrivals[i]
      case TimedOut => return false;
      case Result(j, out) =>
        if out.Missing? {
          if cleanup[j] in views[i] && views[i][cleanup[j]] == {} {
            continue;  // removed already
          }
          return false;
        } else if !out.Answered? {
          return false;
        }
    }
    ok := true;
  }

  /* ---------- all results were consumed ---------- */

  /** n pairwise distinct numbers below n are all the numbers below n. */
  lemma {:induction false} Pigeonhole(js: seq<nat>, n: nat, x: nat)
    requires |js| == n && x < n
    requires forall i :: 0 <= i < n ==> js[i] < n
    requires forall i, i' :: 0 <= i < i' < n ==> js[i] != js[i']
    ensures x in js
  {
    if x !in js {
      Bounded(js, n, x, n);
      assert false;
    }
  }

  function Below(n: nat): (s: set<nat>)
    ensures |s| == n && forall m: nat :: m in s <==> m < n
  {
    if n == 0 then {} else Below(n - 1) + {n - 1}
  }

  lemma {:induction false} Bounded(js: seq<nat>, n: nat, x: nat, k: nat)
    requires k <= |js| && x < n && x !in js
    requires forall i :: 0 <= i < |js| ==> js[i] < n
    requires forall i, i' :: 0 <= i < i' < |js| ==> js[i] != js[i']
    ensures k < n
  {
    var taken := set i | 0 <= i < k :: js[i];
    CardOfPrefix(js, k);
    assert taken <= Below(n) - {x};
    assert |Below(n) - {x}| == n - 1;
    SubsetCard(taken, Below(n) - {x});
  }

  lemma {:induction false} CardOfPrefix(js: seq<nat>, k: nat)
    requires k <= |js|
    requires forall i, i' :: 0 <= i < i' < |js| ==> js[i] != js[i']
    ensures |set i | 0 <= i < k :: js[i]| == k
  {
    if k > 0 {
      CardOfPrefix(js, k - 1);
      assert (set i | 0 <= i < k :: js[i]) == (set i | 0 <= i < k - 1 :: js[i]) + {js[k - 1]};
    }
  }

  lemma SubsetCard(a: set<nat>, b: set<nat>)
    requires a <= b
    ensures |a| <= |b|
  {
    assert b == a + (b - a);
  }

  /** One run of the handler over a trace of the protocol: the surveys prepared in the view
      of state t0, where and when each finished, and what the counting loop saw. */
  datatype Attempt = Attempt(
    t0: nat,
    user: string, convos: seq<string>, streams: seq<string>,
    surveyors: seq<nat>,      // the surveyor of each survey
    doneAt: seq<nat>,         // the state at which MakeSurvey returned
    failAts: seq<nat>,        // which send failed, if any
    arrivals: seq<Arrival>,
    viewAt: seq<nat>)         // the state of each CheckMissing view

  function Paths(a: Attempt): seq<Path> {
    UserPaths(a.user, a.convos, a.streams)
  }

  function Buckets(ts: seq<State>, a: Attempt): seq<Path>
    requires a.t0 < |ts|
  {
    Connected(ts[a.t0].rows, Paths(a), |Paths(a)|)
  }

  /** Survey j: prepared in the view, and finished by state T with the outcome it sent. */
  ghost predicate SurveyRan(ts: seq<State>, a: Attempt, T: nat, j: nat, out: Survey.Outcome)
    requires a.t0 < |ts|
  {
    && j < |Buckets(ts, a)| && j < |a.surveyors| && j < |a.doneAt| && j < |a.failAts|
    && a.t0 <= a.doneAt[j] <= T < |ts|
    && a.surveyors[j] < |ts[a.doneAt[j]].surveyors|
    && ts[a.doneAt[j]].surveyors[a.surveyors[j]].path == Buckets(ts, a)[j]
    && ts[a.doneAt[j]].surveyors[a.surveyors[j]].base == Rows(ts[a.t0], Buckets(ts, a)[j])
    && out == Verdict(ts[a.doneAt[j]], a.surveyors[j], a.failAts[j])
  }

  /** The final Update is reached at state T: every arrival passed.  Each goroutine sends
      its one result, so no survey arrives twice. */
  ghost predicate Reaches(ts: seq<State>, a: Attempt, T: nat) {
    && Trace(ts) && a.t0 <= T < |ts|
    && var n := |Buckets(ts, a)|;
    && |a.arrivals| == n && |a.viewAt| == n
    && (forall i, i' :: 0 <= i < i' < n && a.arrivals[i].Result? && a.arrivals[i'].Result? ==>
          a.arrivals[i].j != a.arrivals[i'].j)
    && (forall i :: 0 <= i < n && a.arrivals[i].Result? ==> SurveyRan(ts, a, T, a.arrivals[i].j, a.arrivals[i].out))
    && (forall i :: 0 <= i < n ==>
          a.t0 <= a.viewAt[i] <= T && Passes(a.arrivals[i], Buckets(ts, a), ts[a.viewAt[i]].rows))
  }

  /** Every survey that was prepared has been heard of. */
  lemma AllConsumed(ts: seq<State>, a: Attempt, T: nat, j: nat) returns (i: nat)
    requires Reaches(ts, a, T) && j < |Buckets(ts, a)|
    ensures i < |a.arrivals| && a.arrivals[i].Result? && a.arrivals[i].j == j
  {
    var n := |Buckets(ts, a)|;
    assert forall i :: 0 <= i < n ==> Passes(a.arrivals[i], Buckets(ts, a), ts[a.viewAt[i]].rows);
    var js := seq(n, i requires 0 <= i < n => a.arrivals[i].j);
    Pigeonhole(js, n, j);
    i :| 0 <= i < n && js[i] == j;
  }

  /** By survey: one that was answered leaves its connections dead, and signalled as long as no
      number of theirs was taken again 2^64 registrations later; one that was not has found every
      row of its bucket gone at the CheckMissing view, and their handlers had ended. */
  lemma EachWayOut(ts: seq<State>, a: Attempt, T: nat, j: nat, n: nat) returns (i: nat)
    requires Reaches(ts, a, T) && j < |Buckets(ts, a)| && n in Rows(ts[a.t0], Buckets(ts, a)[j])
    ensures i < |a.arrivals| && a.arrivals[i].Result? && a.arrivals[i].j == j
    ensures SurveyRan(ts, a, T, j, a.arrivals[i].out)
    ensures var k := Key(Buckets(ts, a)[j], n);
            && Dead(ts[T], k)
            && if a.arrivals[i].out.Answered?
               then Counter(ts[a.doneAt[j]], k.path) < n + U64 ==> ts[T].conns[k].closed
               else n !in Rows(ts[a.viewAt[i]], k.path) && ts[T].conns[k].ended
  {
    i := AllConsumed(ts, a, T, j);
    assert SurveyRan(ts, a, T, j, a.arrivals[i].out);
    assert Passes(a.arrivals[i], Buckets(ts, a), ts[a.viewAt[i]].rows);
    if a.arrivals[i].out.Answered? {
      NilMeansHungUp(ts, a.doneAt[j], T, a.surveyors[j], a.failAts[j], n);
    } else {
      GoneMeansEnded(ts, a.t0, a.viewAt[i], Buckets(ts, a)[j], n);
      RunGrows(ts, a.viewAt[i], T);
    }
  }

  /** Deletion waits for everyone: when the final Update is reached, each connection n that was
      registered for the user's convos, streams and notifs when the surveys were prepared is dead:
      its signal is closed, or its handler has ended and its row is gone. */
  lemma DeletionWaitsForEveryone(ts: seq<State>, a: Attempt, T: nat, p: Path, n: nat)
    requires Reaches(ts, a, T)
    requires p in Paths(a) && n in Rows(ts[a.t0], p)
    ensures Dead(ts[T], Key(p, n))
  {
    ConnectedMember(ts[a.t0].rows, Paths(a), |Paths(a)|, p);
    assert Paths(a)[..|Paths(a)|] == Paths(a);
    var j :| 0 <= j < |Buckets(ts, a)| && Buckets(ts, a)[j] == p;
    var i := EachWayOut(ts, a, T, j, n);
  }
}
