/** Timestamps as log keys: the RFC 3339 form at second precision, whose byte order is time
    order for one offset (section 5.1 of RFC 3339). */
module Rfc3339 {
  import opened Bolt

  /** A local civil time. */
  datatype Civil = Civil(year: nat, month: nat, day: nat, hour: nat, minute: nat, second: nat)

  predicate Leap(y: nat) {
    y % 4 == 0 && (y % 100 != 0 || y % 400 == 0)
  }

  function DaysIn(y: nat, m: nat): nat {
    if m == 2 then (if Leap(y) then 29 else 28) else if m == 4 || m == 6 || m == 9 || m == 11 then 30 else 31
  }

  /** A civil time with a four-digit year. */
  predicate Valid(c: Civil) {
    && c.year < 10000 && 1 <= c.month <= 12 && 1 <= c.day <= DaysIn(c.year, c.month)
    && c.hour < 24 && c.minute < 60 && c.second < 60
  }

  /* ---------- time ---------- */

  function DaysBeforeMonth(y: nat, m: nat): nat {
    if m <= 1 then 0 else DaysBeforeMonth(y, m - 1) + DaysIn(y, m - 1)
  }

  function DaysBeforeYear(y: nat): nat {
    if y == 0 then 0 else DaysBeforeYear(y - 1) + DaysBeforeMonth(y - 1, 13)
  }

  function Day(c: Civil): int {
    DaysBeforeYear(c.year) + DaysBeforeMonth(c.year, c.month) + c.day
  }

  /** Seconds since the start of year 0, in the local reckoning. */
  function Seconds(c: Civil): int {
    86400 * Day(c) + 3600 * c.hour + 60 * c.minute + c.second
  }

  lemma {:induction false} MonthsGrow(y: nat, m: nat, m': nat)
    requires 1 <= m < m' <= 13
    ensures DaysBeforeMonth(y, m) + DaysIn(y, m) <= DaysBeforeMonth(y, m')
  {
    if m + 1 < m' {
      MonthsGrow(y, m, m' - 1);
    }
  }

  lemma {:induction false} YearsGrow(y: nat, y': nat)
    requires y < y'
    ensures DaysBeforeYear(y) + DaysBeforeMonth(y, 13) <= DaysBeforeYear(y')
  {
    if y + 1 < y' {
      YearsGrow(y, y' - 1);
    }
  }

  predicate DateLess(a: Civil, b: Civil) {
    a.year < b.year || (a.year == b.year && (a.month < b.month || (a.month == b.month && a.day < b.day)))
  }

  predicate Earlier(a: Civil, b: Civil) {
    DateLess(a, b) ||
    (a.year == b.year && a.month == b.month && a.day == b.day &&
     (a.hour < b.hour || (a.hour == b.hour && (a.minute < b.minute || (a.minute == b.minute && a.second < b.second)))))
  }

  lemma DateOrder(a: Civil, b: Civil)
    requires Valid(a) && Valid(b) && DateLess(a, b)
    ensures Day(a) < Day(b)
  {
    if a.year < b.year {
      MonthsGrow(a.year, a.month, 13);
      YearsGrow(a.year, b.year);
    } else if a.month < b.month {
      MonthsGrow(a.year, a.month, b.month);
    }
  }

  lemma DayOfClock(a: Civil, b: Civil)
    requires Valid(a) && Valid(b) && Earlier(a, b)
    ensures Seconds(a) < Seconds(b)
  {
    if DateLess(a, b) {
      DateOrder(a, b);
    }
  }

  /** The field order of civil times is the order of their seconds. */
  lemma CivilOrder(a: Civil, b: Civil)
    requires Valid(a) && Valid(b)
    ensures Earlier(a, b) <==> Seconds(a) < Seconds(b)
    ensures a == b <==> Seconds(a) == Seconds(b)
  {
    if Earlier(a, b) {
      DayOfClock(a, b);
    } else if Earlier(b, a) {
      DayOfClock(b, a);
    } else {
      assert a == b;
    }
  }

  /* ---------- text ---------- */

  function Pow10(w: nat): (p: nat)
    ensures p > 0
  {
    if w == 0 then 1 else 10 * Pow10(w - 1)
  }

  /** x in w decimal digits, with leading zeros. */
  function Digits(x: nat, w: nat): (s: string)
    ensures |s| == w
  {
    if w == 0 then [] else Digits(x / 10, w - 1) + ['0' + (x % 10) as char]
  }

  lemma {:induction false} DigitsOrder(x: nat, y: nat, w: nat)
    requires x < Pow10(w) && y < Pow10(w)
    ensures Less(Digits(x, w), Digits(y, w)) <==> x < y
    ensures Digits(x, w) == Digits(y, w) <==> x == y
  {
    if w > 0 {
      var p, q := Digits(x / 10, w - 1), Digits(y / 10, w - 1);
      var d, e := ['0' + (x % 10) as char], ['0' + (y % 10) as char];
      DigitsOrder(x / 10, y / 10, w - 1);
      LessPrefix(p, d, q, e);
      assert Less(d, e) <==> x % 10 < y % 10;
      assert p + d == q + e <==> p == q && d == e by {
        assert (p + d)[..w - 1] == p && (q + e)[..w - 1] == q;
        assert (p + d)[w - 1..] == d && (q + e)[w - 1..] == e;
      }
      assert d == e <==> d[0] == e[0];
    }
  }

  /** One field and its separator, then the rest. */
  lemma FieldOrder(x: nat, y: nat, w: nat, sep: string, s: string, t: string)
    requires x < Pow10(w) && y < Pow10(w)
    ensures Less(Digits(x, w) + (sep + s), Digits(y, w) + (sep + t)) <==> x < y || (x == y && Less(s, t))
    ensures Digits(x, w) + (sep + s) == Digits(y, w) + (sep + t) <==> x == y && s == t
  {
    DigitsOrder(x, y, w);
    LessPrefix(Digits(x, w), sep + s, Digits(y, w), sep + t);
    LessPrefix(sep, s, sep, t);
    LessTotal(sep, sep);
    Unappend(Digits(x, w), sep + s, Digits(y, w), sep + t);
    Unappend(sep, s, sep, t);
  }

  lemma Unappend(p: string, s: string, q: string, t: string)
    requires |p| == |q|
    ensures p + s == q + t <==> p == q && s == t
  {
    assert (p + s)[..|p|] == p && (q + t)[..|q|] == q;
    assert (p + s)[|p|..] == s && (q + t)[|q|..] == t;
  }

  /** The clock part, then the offset. */
  function ClockText(c: Civil, zone: string): string {
    Digits(c.hour, 2) + (":" + (Digits(c.minute, 2) + (":" + (Digits(c.second, 2) + ("" + zone)))))
  }

  /** time.RFC3339: 2006-01-02T15:04:05 and the offset. */
  function Text(c: Civil, zone: string): string {
    Digits(c.year, 4) + ("-" + (Digits(c.month, 2) + ("-" + (Digits(c.day, 2) + ("T" + ClockText(c, zone))))))
  }

  predicate ClockLess(a: Civil, b: Civil) {
    a.hour < b.hour || (a.hour == b.hour && (a.minute < b.minute || (a.minute == b.minute && a.second < b.second)))
  }

  lemma ClockOrder(a: Civil, b: Civil, za: string, zb: string)
    requires Valid(a) && Valid(b)
    ensures var same := a.hour == b.hour && a.minute == b.minute && a.second == b.second;
            && (Less(ClockText(a, za), ClockText(b, zb)) <==> ClockLess(a, b) || (same && Less(za, zb)))
            && (ClockText(a, za) == ClockText(b, zb) <==> same && za == zb)
  {
    assert Pow10(2) == 100 by { assert Pow10(1) == 10; }
    FieldOrder(a.second, b.second, 2, "", za, zb);
    var sa, sb := Digits(a.second, 2) + ("" + za), Digits(b.second, 2) + ("" + zb);
    FieldOrder(a.minute, b.minute, 2, ":", sa, sb);
    var ma, mb := Digits(a.minute, 2) + (":" + sa), Digits(b.minute, 2) + (":" + sb);
    FieldOrder(a.hour, b.hour, 2, ":", ma, mb);
  }

  /** Keys compare the local civil time first, whatever the offsets, and only then the offset. */
  lemma TextOrder(a: Civil, b: Civil, za: string, zb: string)
    requires Valid(a) && Valid(b)
    ensures Less(Text(a, za), Text(b, zb)) <==> Earlier(a, b) || (a == b && Less(za, zb))
    ensures Text(a, za) == Text(b, zb) <==> a == b && za == zb
  {
    assert Pow10(2) == 100 by { assert Pow10(1) == 10; }
    assert Pow10(4) == 10000 by { assert Pow10(3) == 1000; }
    ClockOrder(a, b, za, zb);
    var ca, cb := ClockText(a, za), ClockText(b, zb);
    FieldOrder(a.day, b.day, 2, "T", ca, cb);
    var da, db := Digits(a.day, 2) + ("T" + ca), Digits(b.day, 2) + ("T" + cb);
    FieldOrder(a.month, b.month, 2, "-", da, db);
    var ma, mb := Digits(a.month, 2) + ("-" + da), Digits(b.month, 2) + ("-" + db);
    FieldOrder(a.year, b.year, 4, "-", ma, mb);
  }

  /* ---------- stamps ---------- */

  /** An offset from UTC in seconds: whole minutes and less than a day, as the text can tell. */
  type Offset = s: int | s % 60 == 0 && -86400 < s < 86400

  function Minutes(m: nat): string {
    Digits(m / 60, 2) + (":" + Digits(m % 60, 2))
  }

  /** "Z", "+hh:mm" or "-hh:mm" */
  function Zone(o: Offset): string {
    if o == 0 then "Z" else if o > 0 then "+" + Minutes(o / 60) else "-" + Minutes(-o / 60)
  }

  lemma MinutesOrder(x: nat, y: nat)
    requires x < 1440 && y < 1440
    ensures Less(Minutes(x), Minutes(y)) <==> x < y
    ensures Minutes(x) == Minutes(y) <==> x == y
  {
    assert Pow10(2) == 100 by { assert Pow10(1) == 10; }
    FieldOrder(x / 60, y / 60, 2, ":", Digits(x % 60, 2), Digits(y % 60, 2));
    DigitsOrder(x % 60, y % 60, 2);
  }

  /** Where an offset sorts as text: east, then west, farther ones later, and UTC last. */
  function Rank(o: Offset): nat {
    if o == 0 then 200000 else if o > 0 then o else 100000 - o
  }

  lemma ZoneOrder(a: Offset, b: Offset)
    ensures Less(Zone(a), Zone(b)) <==> Rank(a) < Rank(b)
    ensures Zone(a) == Zone(b) <==> a == b
  {
    if a > 0 && b > 0 {
      MinutesOrder(a / 60, b / 60);
      LessPrefix("+", Minutes(a / 60), "+", Minutes(b / 60));
      Unappend("+", Minutes(a / 60), "+", Minutes(b / 60));
    } else if a < 0 && b < 0 {
      MinutesOrder(-a / 60, -b / 60);
      LessPrefix("-", Minutes(-a / 60), "-", Minutes(-b / 60));
      Unappend("-", Minutes(-a / 60), "-", Minutes(-b / 60));
    } else {
      assert a != 0 || b != 0 ==> Zone(a)[0] != Zone(b)[0];
    }
  }

  /** A time.Time: a second in a zone, and the nanoseconds the key drops. */
  datatype Stamp = Stamp(civil: Civil, offset: Offset, nanos: nat)

  /** The second of the instant, in UTC reckoning. */
  function Second(s: Stamp): int {
    Seconds(s.civil) - s.offset
  }

  /** AppendFormat(nil, time.RFC3339) */
  function Key(s: Stamp): string {
    Text(s.civil, Zone(s.offset))
  }

  /** For stamps of one offset and four-digit years, byte order of keys is time order, and
      equal keys are equal seconds. */
  lemma KeyOrder(a: Stamp, b: Stamp)
    requires Valid(a.civil) && Valid(b.civil) && a.offset == b.offset
    ensures Less(Key(a), Key(b)) <==> Second(a) < Second(b)
    ensures Key(a) == Key(b) <==> Second(a) == Second(b)
  {
    TextOrder(a.civil, b.civil, Zone(a.offset), Zone(b.offset));
    CivilOrder(a.civil, b.civil);
    ZoneOrder(a.offset, b.offset);
  }

  /** For one clock reading with two offsets, text order is time order: not for two eastern ones,
      nor for UTC with a western one. */
  predicate SortsAlike(a: Offset, b: Offset) {
    a == b || (if a == 0 || b == 0 then a > 0 || b > 0 else a < 0 || b < 0)
  }

  /** With two offsets, exactly.  Where the local clocks differ, the keys follow the clocks, which is
      right unless the difference of the offsets outweighs that of the clocks or, for the earlier
      clock first, equals it.  Where the clocks read the same, the offsets alone decide. */
  lemma MixedOffsets(a: Stamp, b: Stamp)
    requires Valid(a.civil) && Valid(b.civil)
    ensures (Less(Key(a), Key(b)) <==> Second(a) < Second(b))
       <==> var d, shift := Seconds(a.civil) - Seconds(b.civil), a.offset - b.offset;
            if d < 0 then d < shift
            else if d > 0 then shift <= d
            else SortsAlike(a.offset, b.offset)
  {
    TextOrder(a.civil, b.civil, Zone(a.offset), Zone(b.offset));
    CivilOrder(a.civil, b.civil);
    ZoneOrder(a.offset, b.offset);
  }

  /** Any time in UTC and the reading half an hour later in +01:00: the keys say first and
      second, the instants are the other way round.  So they do for one reading in -05:00 and UTC. */
  lemma MixedOffsetsDisagree(c: Civil)
    requires Valid(c)
    ensures var a, b := Stamp(c, 0, 0), Stamp(c.(minute := c.minute + 30), 3600, 0);
            c.minute < 30 ==> Valid(b.civil) && Less(Key(a), Key(b)) && Second(b) < Second(a)
    ensures var a, b := Stamp(c, -18000, 0), Stamp(c, 0, 0);
            Less(Key(a), Key(b)) && Second(b) < Second(a)
  {
    if c.minute < 30 {
      TextOrder(c, c.(minute := c.minute + 30), Zone(0), Zone(3600));
    }
    TextOrder(c, c, Zone(-18000), Zone(0));
    ZoneOrder(-18000, 0);
  }
}
