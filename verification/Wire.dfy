/** Byte-level and decimal forms of river ids: the little-endian suffix of a
    survey reply and the decimal registry keys (stream/river). */
module Wire {
  import opened Options

  type byte = b: int | 0 <= b < 256
  type Bytes = seq<byte>

  const U64 := 0x1_0000_0000_0000_0000

  /** A Go uint64. */
  type u64 = x: int | 0 <= x < U64

  /** The n-th number Bucket.NextSequence hands out: a uint64 that wraps. */
  function Num(n: nat): u64 {
    n % U64
  }

  /** A bucket hands out one number twice exactly when a multiple of 2^64 allocations lies
      between; deletions do not matter. */
  lemma SequenceReuse(i: nat, j: nat)
    requires i <= j
    ensures Num(i) == Num(j) <==> (j - i) % U64 == 0
    ensures Num(i) == Num(j) && i != j ==> j >= i + U64
  {
  }

  // "HUP", "OK" and "IDK" (stream/river/consts.go)
  const HUP: Bytes := [72, 85, 80]
  const OK: Bytes := [79, 75]
  const UNKNOWN: Bytes := [73, 68, 75]

  predicate HasPrefix(bs: Bytes, p: Bytes) {
    |p| <= |bs| && bs[..|p|] == p
  }

  /* ---------- little endian ---------- */

  function Pow256(n: nat): (p: nat)
    ensures p > 0
  {
    if n == 0 then 1 else 256 * Pow256(n - 1)
  }

  /** The n low bytes of x, least significant first; n = 8 is binary.LittleEndian.PutUint64. */
  function PutUint(x: nat, n: nat): (bs: Bytes)
    ensures |bs| == n
  {
    if n == 0 then [] else [x % 256] + PutUint(x / 256, n - 1)
  }

  /** The number little-endian bytes denote. */
  function Uint(bs: Bytes): nat {
    if bs == [] then 0 else bs[0] + 256 * Uint(bs[1..])
  }

  /** binary.LittleEndian.Uint64: reads the first eight bytes and panics on fewer. */
  function Uint64(bs: Bytes): Option<nat> {
    if |bs| < 8 then None else Some(Uint(bs[..8]))
  }

  lemma ModUnique(x: nat, m: nat, q: int, r: nat)
    requires r < m && x == m * q + r
    ensures x % m == r
  {
    var d := q - x / m;
    assert m * d == x % m - r;
  }

  /** The low byte and the rest, modulo 256p. */
  lemma ByteMod(x: nat, p: nat)
    requires p > 0
    ensures x % (256 * p) == x % 256 + 256 * ((x / 256) % p)
  {
    var y := x / 256;
    assert y == p * (y / p) + y % p;
    assert x == 256 * y + x % 256;
    assert x == (256 * p) * (y / p) + (256 * (y % p) + x % 256);
    ModUnique(x, 256 * p, y / p, 256 * (y % p) + x % 256);
  }

  /** Writing n bytes keeps x modulo 256^n. */
  lemma {:induction false} UintPutUint(x: nat, n: nat)
    ensures Uint(PutUint(x, n)) == x % Pow256(n)
  {
    if n > 0 {
      UintPutUint(x / 256, n - 1);
      assert PutUint(x, n)[1..] == PutUint(x / 256, n - 1);
      ByteMod(x, Pow256(n - 1));
    }
  }

  /** Reading bytes and writing them back gives the same bytes. */
  lemma {:induction false} PutUintUint(bs: Bytes)
    ensures PutUint(Uint(bs), |bs|) == bs
  {
    if bs != [] {
      PutUintUint(bs[1..]);
      assert Uint(bs) / 256 == Uint(bs[1..]);
    }
  }

  lemma {:induction false} PutUintPrefix(x: nat, n: nat, k: nat)
    requires k <= n
    ensures PutUint(x, n)[..k] == PutUint(x, k)
  {
    if k > 0 {
      PutUintPrefix(x / 256, n - 1, k - 1);
      assert PutUint(x, n)[..k] == [x % 256] + PutUint(x / 256, n - 1)[..k - 1];
    }
  }

  lemma Pow256Values()
    ensures Pow256(7) == 0x100_0000_0000_0000
    ensures Pow256(8) == U64
  {
  }

  /** What a responder sends: a constant suffixed with its id (responder.go:40-44). */
  function Reply(kind: Bytes, id: u64): Bytes {
    kind + PutUint(id, 8)
  }

  lemma Uint64OfPut(x: u64)
    ensures Uint64(PutUint(x, 8)) == Some(x)
  {
    var bs := PutUint(x, 8);
    UintPutUint(x, 8);
    Pow256Values();
    assert bs[..8] == bs;
  }

  lemma PutOfUint64(bs: Bytes)
    requires |bs| == 8
    ensures Uint64(bs).Some? && Uint64(bs).value < U64 && PutUint(Uint64(bs).value, 8) == bs
  {
    assert bs[..8] == bs;
    PutUintUint(bs);
    UintPutUint(Uint(bs), |bs|);
    Pow256Values();
  }

  /** PutUint64 and Uint64 are mutual inverses on every uint64 and every eight bytes. */
  lemma Uint64RoundTrip(x: u64, bs: Bytes)
    requires |bs| == 8
    ensures Uint64(PutUint(x, 8)) == Some(x)
    ensures Uint64(bs).Some? && Uint64(bs).value < U64 && PutUint(Uint64(bs).value, 8) == bs
  {
    Uint64OfPut(x);
    PutOfUint64(bs);
  }

  /** An OK reply has the OK prefix, is not taken for an IDK reply, and credits exactly its sender. */
  lemma OkCreditsSender(id: u64)
    ensures HasPrefix(Reply(OK, id), OK) && !HasPrefix(Reply(OK, id), UNKNOWN)
    ensures Uint64(Reply(OK, id)[|OK|..]) == Some(id)
  {
    var bs := Reply(OK, id);
    assert bs[|OK|..] == PutUint(id, 8);
    Uint64OfPut(id);
    assert bs[..3][0] == 79;
  }

  /** An IDK reply is read at the offset of "OK", one byte early (surveyor.go:80): the
      entry is the letter K followed by the low seven bytes of the id. */
  lemma IdkEntry(id: u64)
    ensures HasPrefix(Reply(UNKNOWN, id), UNKNOWN) && !HasPrefix(Reply(UNKNOWN, id), OK)
    ensures Uint64(Reply(UNKNOWN, id)[|OK|..]) == Some(75 + 256 * (id % 0x100_0000_0000_0000))
  {
    var bs := Reply(UNKNOWN, id);
    assert bs[..2][0] == 73;
    var tail := bs[|OK|..];
    assert tail == [75] + PutUint(id, 8);
    assert tail[..8] == [75] + PutUint(id, 8)[..7];
    PutUintPrefix(id, 8, 7);
    UintPutUint(id, 7);
    Pow256Values();
    assert tail[..8][1..] == PutUint(id, 7);
  }

  /** Two IDK replies share an errs entry exactly when their ids agree modulo 2^56. */
  lemma IdkCollision(a: u64, b: u64)
    ensures Uint64(Reply(UNKNOWN, a)[|OK|..]) == Uint64(Reply(UNKNOWN, b)[|OK|..])
       <==> a % 0x100_0000_0000_0000 == b % 0x100_0000_0000_0000
  {
    IdkEntry(a);
    IdkEntry(b);
  }

  /* ---------- decimal ---------- */

  function Digit(d: nat): char
    requires d < 10
  {
    '0' + d as char
  }

  predicate IsDigit(c: char) {
    '0' <= c <= '9'
  }

  predicate AllDigits(s: string) {
    forall i :: 0 <= i < |s| ==> IsDigit(s[i])
  }

  /** strconv.FormatUint(x, 10) */
  function FormatUint(x: nat): (s: string)
    ensures |s| > 0 && AllDigits(s)
  {
    if x < 10 then [Digit(x)] else FormatUint(x / 10) + [Digit(x % 10)]
  }

  function DecValue(s: string): nat
    requires AllDigits(s)
  {
    if s == [] then 0
    else 10 * DecValue(s[..|s| - 1]) + (s[|s| - 1] as int - '0' as int)
  }

  /** strconv.ParseUint(s, 10, 64): a syntax error on an empty or non-digit string,
      a range error from 2^64 on. */
  function ParseUint(s: string): Option<u64> {
    if s == [] || !AllDigits(s) then None
    else if DecValue(s) >= U64 then None
    else Some(DecValue(s))
  }

  lemma {:induction false} DecValueFormat(x: nat)
    ensures DecValue(FormatUint(x)) == x
  {
    if x >= 10 {
      DecValueFormat(x / 10);
      var s := FormatUint(x);
      assert s[..|s| - 1] == FormatUint(x / 10);
    }
  }

  /** No redundant leading zero: what FormatUint writes. */
  predicate Canonical(s: string) {
    |s| > 0 && AllDigits(s) && (|s| > 1 ==> s[0] != '0')
  }

  lemma {:induction false} FormatDecValue(s: string)
    requires Canonical(s)
    ensures FormatUint(DecValue(s)) == s
    ensures |s| > 1 ==> DecValue(s) >= 10
    ensures s[0] != '0' ==> DecValue(s) >= 1
  {
    var front, d := s[..|s| - 1], s[|s| - 1] as int - '0' as int;
    assert s == front + [s[|s| - 1]];
    assert s[|s| - 1] == Digit(d);
    if |s| > 1 {
      assert front[0] == s[0];
      FormatDecValue(front);
      assert DecValue(s) / 10 == DecValue(front);
      assert DecValue(s) % 10 == d;
    } else {
      assert front == [];
    }
  }

  /** FormatUint writes canonical strings only. */
  lemma {:induction false} FormatCanonical(x: nat)
    ensures Canonical(FormatUint(x))
    ensures x > 0 ==> FormatUint(x)[0] != '0'
  {
    if x >= 10 {
      FormatCanonical(x / 10);
      assert FormatUint(x)[0] == FormatUint(x / 10)[0];
    }
  }

  lemma ParseFormat(x: u64)
    ensures ParseUint(FormatUint(x)) == Some(x)
  {
    DecValueFormat(x);
  }

  /** Decimal registry keys: parsing undoes formatting for every uint64, and a key is a
      formatted id exactly when it is canonical and in range. */
  lemma DecimalRoundTrip(x: u64, s: string)
    ensures ParseUint(FormatUint(x)) == Some(x)
    ensures (exists y: u64 :: FormatUint(y) == s) <==> Canonical(s) && ParseUint(s).Some?
    ensures Canonical(s) && ParseUint(s).Some? ==> FormatUint(ParseUint(s).value) == s
  {
    ParseFormat(x);
    if y: u64 :| FormatUint(y) == s {
      FormatCanonical(y);
      DecValueFormat(y);
    }
    if Canonical(s) && ParseUint(s).Some? {
      FormatDecValue(s);
      assert FormatUint(ParseUint(s).value) == s;
    }
  }

  /** Distinct ids have distinct keys. */
  lemma FormatInjective(x: nat, y: nat)
    requires FormatUint(x) == FormatUint(y)
    ensures x == y
  {
    DecValueFormat(x);
    DecValueFormat(y);
  }
}
