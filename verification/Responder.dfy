/** Responders and their registry rows (stream/river/responder.go, missing.go, the row loop
    of surveyor.go, and HangupSender of rest/ws/hangup.go). */
module Responder {
  import opened Options
  import opened Wire

  /** A chan struct{} that is only ever closed; closing it twice panics. */
  class Signal {
    var closed: bool

    constructor ()
      ensures !closed
    {
      closed := false;
    }

    method Close()
      requires !closed
      modifies this
      ensures closed
    {
      closed := true;
    }
  }

  datatype Effect = Closed | Sent(bs: Bytes)

  /** A responder wrapped by MakeHangup.  effects lists what the outside can observe, in order. */
  class HangupSender {
    const id: u64
    const signal: Signal
    var effects: seq<Effect>

    constructor (id: u64)
      ensures this.id == id && effects == []
      ensures fresh(signal) && !signal.closed
    {
      this.id := id;
      signal := new Signal();
      effects := [];
    }

    /** hangup.go:38-41: the signal closes first, whether or not the reply then leaves. */
    method Send(msg: Bytes, sendOk: bool) returns (ok: bool)
      requires !signal.closed
      modifies this, signal
      ensures signal.closed && ok == sendOk
      ensures effects == old(effects) + if sendOk then [Closed, Sent(msg)] else [Closed]
    {
      signal.Close();
      effects := effects + [Closed];
      if sendOk {
        effects := effects + [Sent(msg)];
      }
      ok := sendOk;
    }

    /** Wait (responder.go:19-36) on this responder; received is None where Recv fails.  The
        result says whether the survey was the one waited for and the reply left. */
    method Wait(received: Option<Bytes>, survey: Bytes, rsp: Bytes, other: Bytes, sendOk: bool) returns (ok: bool)
      requires !signal.closed
      modifies this, signal
      ensures received.None? ==> effects == old(effects) && !signal.closed && !ok
      ensures received.Some? ==>
        && signal.closed
        && effects == old(effects) + [Closed] +
             (if !sendOk then [] else if received.value == survey then [Sent(rsp)] else [Sent(other)])
        && (ok <==> received.value == survey && sendOk)
    {
      if received.None? {
        return false;
      }
      if received.value == survey {
        ok := Send(rsp, sendOk);
      } else {
        var sent := Send(other, sendOk);
        ok := false;
      }
    }

    /** AwaitHangup (responder.go:40-44) starting on a fresh signal: at most one close, at most
        one reply, and no reply leaves before the close. */
    method AwaitHangup(received: Option<Bytes>, sendOk: bool) returns (ok: bool)
      requires !signal.closed && effects == []
      modifies this, signal
      ensures effects in {[], [Closed], [Closed, Sent(Reply(OK, id))], [Closed, Sent(Reply(UNKNOWN, id))]}
      ensures signal.closed <==> effects != []
      ensures Sent(Reply(OK, id)) in effects <==> received == Some(HUP) && sendOk
      ensures ok <==> received == Some(HUP) && sendOk
    {
      OkCreditsSender(id);
      IdkEntry(id);
      ok := Wait(received, HUP, Reply(OK, id), Reply(UNKNOWN, id), sendOk);
      assert [Closed] + [] == [Closed];
      assert effects == [] || effects == [Closed]
        || effects == [Closed, Sent(Reply(OK, id))] || effects == [Closed, Sent(Reply(UNKNOWN, id))];
    }
  }

  /* ---------- registry rows ---------- */

  /** The bucket's keys are the decimal forms of ids. */
  ghost predicate KeysOf(keys: seq<string>, ids: set<u64>) {
    && (forall i :: 0 <= i < |keys| ==> exists id :: id in ids && keys[i] == FormatUint(id))
    && (forall id :: id in ids ==> FormatUint(id) in keys)
  }

  /** The row loop of NewSurvey (surveyor.go:176-196): expected ids, and the addresses dialed.
      A key that is no number ends the loop, and the error is dropped. */
  method ReadRows(prefix: string, keys: seq<string>) returns (want: set<u64>, dialed: seq<string>)
    ensures |dialed| <= |keys|
    ensures forall i :: 0 <= i < |dialed| ==> dialed[i] == prefix + keys[i] && ParseUint(keys[i]).Some?
    ensures |dialed| < |keys| ==> ParseUint(keys[|dialed|]).None?
    ensures want == set i | 0 <= i < |dialed| :: ParseUint(keys[i]).value
  {
    want, dialed := {}, [];
    for i := 0 to |keys|
      invariant |dialed| == i
      invariant forall j :: 0 <= j < i ==> dialed[j] == prefix + keys[j] && ParseUint(keys[j]).Some?
      invariant want == set j | 0 <= j < i :: ParseUint(keys[j]).value
    {
      var id := ParseUint(keys[i]);
      if id.None? {
        return;
      }
      want := want + {id.value};
      dialed := dialed + [prefix + keys[i]];
    }
  }

  /** Expect() is exactly the set of registered ids. */
  lemma ExpectIsRegistered(keys: seq<string>, ids: set<u64>, n: nat)
    requires KeysOf(keys, ids) && n <= |keys|
    requires n < |keys| ==> ParseUint(keys[n]).None?
    requires forall i :: 0 <= i < n ==> ParseUint(keys[i]).Some?
    ensures n == |keys|
    ensures (set i | 0 <= i < n :: ParseUint(keys[i]).value) == ids
  {
    forall i | 0 <= i < |keys|
      ensures ParseUint(keys[i]).Some? && ParseUint(keys[i]).value in ids
    {
      var id :| id in ids && keys[i] == FormatUint(id);
      ParseFormat(id);
    }
    var got := set i | 0 <= i < n :: ParseUint(keys[i]).value;
    forall id | id in ids
      ensures id in got
    {
      ParseFormat(id);
      var i :| 0 <= i < |keys| && keys[i] == FormatUint(id);
      assert ParseUint(keys[i]).value in got;
    }
  }

  datatype MissingResult = Clear | Remain(ids: seq<u64>) | BadKey

  /** The cursor loop of CheckMissing (missing.go:59-73) on a bucket that exists. */
  method CheckMissing(keys: seq<string>) returns (r: MissingResult)
    ensures r.Clear? <==> keys == []
    ensures r.BadKey? <==> exists i :: 0 <= i < |keys| && ParseUint(keys[i]).None?
    ensures r.Remain? ==> |r.ids| == |keys| && forall i :: 0 <= i < |keys| ==> ParseUint(keys[i]) == Some(r.ids[i])
  {
    var remain: seq<u64> := [];
    for i := 0 to |keys|
      invariant |remain| == i
      invariant forall j :: 0 <= j < i ==> ParseUint(keys[j]) == Some(remain[j])
    {
      var id := ParseUint(keys[i]);
      if id.None? {
        return BadKey;
      }
      remain := remain + [id.value];
    }
    r := if |remain| > 0 then Remain(remain) else Clear;
  }
}
