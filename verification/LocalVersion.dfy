/** The version of a locally built package, and where it stands among published ones. */
module LocalVersion {
  import opened Basics

  // ---- precedence, section 11 of Semantic Versioning 2.0.0 ----

  datatype Ident = Num(n: nat) | Alpha(s: string)

  /** A version without build metadata; a release has no pre-release identifiers. */
  datatype Version = Version(major: nat, minor: nat, patch: nat, pre: seq<Ident>)

  /** ASCII order, a proper prefix first. */
  predicate LexLess(a: string, b: string) {
    b != "" && (a == "" || a[0] < b[0] || (a[0] == b[0] && LexLess(a[1..], b[1..])))
  }

  predicate IdentLess(a: Ident, b: Ident) {
    if a.Num? then b.Alpha? || a.n < b.n else b.Alpha? && LexLess(a.s, b.s)
  }

  predicate PreLess(a: seq<Ident>, b: seq<Ident>) {
    b != [] && (a == [] || IdentLess(a[0], b[0]) || (a[0] == b[0] && PreLess(a[1..], b[1..])))
  }

  predicate Less(a: Version, b: Version) {
    if a.major != b.major then a.major < b.major
    else if a.minor != b.minor then a.minor < b.minor
    else if a.patch != b.patch then a.patch < b.patch
    else if a.pre == [] then false
    else b.pre == [] || PreLess(a.pre, b.pre)
  }

  lemma {:induction false} LexOrders(a: string, b: string, c: string)
    ensures !LexLess(a, a)
    ensures a != b ==> LexLess(a, b) || LexLess(b, a)
    ensures LexLess(a, b) && LexLess(b, c) ==> LexLess(a, c)
    decreases |a| + |b| + |c|
  {
    if a != "" {
      LexOrders(a[1..], if b == "" then "" else b[1..], if c == "" then "" else c[1..]);
      assert a == [a[0]] + a[1..];
      if b != "" { assert b == [b[0]] + b[1..]; }
    }
  }

  lemma IdentOrders(a: Ident, b: Ident, c: Ident)
    ensures !IdentLess(a, a)
    ensures a != b ==> IdentLess(a, b) || IdentLess(b, a)
    ensures IdentLess(a, b) && IdentLess(b, c) ==> IdentLess(a, c)
  {
    if a.Alpha? && b.Alpha? {
      LexOrders(a.s, b.s, if c.Alpha? then c.s else "");
    }
    if a.Alpha? {
      LexOrders(a.s, a.s, a.s);
    }
  }

  lemma {:induction false} PreOrders(a: seq<Ident>, b: seq<Ident>, c: seq<Ident>)
    ensures !PreLess(a, a)
    ensures a != b ==> PreLess(a, b) || PreLess(b, a)
    ensures PreLess(a, b) && PreLess(b, c) ==> PreLess(a, c)
    decreases |a| + |b| + |c|
  {
    if a != [] {
      PreOrders(a[1..], if b == [] then [] else b[1..], if c == [] then [] else c[1..]);
      assert a == [a[0]] + a[1..];
      if b != [] {
        assert b == [b[0]] + b[1..];
        IdentOrders(a[0], b[0], if c == [] then Num(0) else c[0]);
      } else {
        IdentOrders(a[0], a[0], a[0]);
      }
    }
  }

  /** Precedence is a strict total order on versions. */
  lemma PrecedenceIsATotalOrder(a: Version, b: Version, c: Version)
    ensures !Less(a, a)
    ensures a != b ==> Less(a, b) || Less(b, a)
    ensures Less(a, b) && Less(b, c) ==> Less(a, c)
  {
    PreOrders(a.pre, b.pre, c.pre);
  }

  // ---- timestamps ----

  /** Years written with four digits, as ISO dates write those from 0 to 9999. */
  type Year = y: int | 0 <= y < 10000

  /** A date in UTC; `Invalid` is one whose time is not a number. */
  datatype Date = Invalid | Date(year: Year, month: nat, day: nat, hour: nat, minute: nat, second: nat, millis: nat)

  predicate InRange(d: Date) {
    && d.Date? && 1 <= d.month <= 12 && 1 <= d.day <= 31
    && d.hour < 24 && d.minute < 60 && d.second < 60 && d.millis < 1000
  }

  predicate Earlier(a: Date, b: Date)
    requires a.Date? && b.Date?
  {
    if a.year != b.year then a.year < b.year
    else if a.month != b.month then a.month < b.month
    else if a.day != b.day then a.day < b.day
    else if a.hour != b.hour then a.hour < b.hour
    else if a.minute != b.minute then a.minute < b.minute
    else if a.second != b.second then a.second < b.second
    else a.millis < b.millis
  }

  function Pow10(w: nat): nat {
    if w == 0 then 1 else 10 * Pow10(w - 1)
  }

  function Pad(n: nat, w: nat): string {
    if w == 0 then "" else Pad(n / 10, w - 1) + [Digit(n % 10)]
  }

  /** The ISO form of a date without its dashes, colons and dot. */
  function FormatUtcTimestamp(d: Date): string
    requires d.Date?
  {
    Pad(d.year, 4) + (Pad(d.month, 2) + (Pad(d.day, 2) + ("T" + (Pad(d.hour, 2) + (Pad(d.minute, 2)
      + (Pad(d.second, 2) + (Pad(d.millis, 3) + "Z")))))))
  }

  lemma {:induction false} LexAfterPrefix(p: string, x: string, y: string)
    ensures LexLess(p + x, p + y) == LexLess(x, y)
  {
    if p == "" {
      assert p + x == x && p + y == y;
    } else {
      LexAfterPrefix(p[1..], x, y);
      assert (p + x)[1..] == p[1..] + x && (p + y)[1..] == p[1..] + y;
    }
  }

  /** Among numerals of one width the smaller number comes first, whatever follows. */
  lemma {:induction false} PadOrders(m: nat, n: nat, w: nat, x: string, y: string)
    requires m < n < Pow10(w)
    ensures LexLess(Pad(m, w) + x, Pad(n, w) + y)
  {
    var dx, dy := [Digit(m % 10)] + x, [Digit(n % 10)] + y;
    assert Pad(m, w) + x == Pad(m / 10, w - 1) + dx && Pad(n, w) + y == Pad(n / 10, w - 1) + dy;
    if m / 10 < n / 10 {
      PadOrders(m / 10, n / 10, w - 1, dx, dy);
    } else {
      LexAfterPrefix(Pad(m / 10, w - 1), dx, dy);
    }
  }

  /** One field of a timestamp: it decides unless it is equal, and then the rest does. */
  lemma FieldOrders(m: nat, n: nat, w: nat, x: string, y: string)
    requires n < Pow10(w)
    requires m < n || (m == n && LexLess(x, y))
    ensures LexLess(Pad(m, w) + x, Pad(n, w) + y)
  {
    if m < n {
      PadOrders(m, n, w, x, y);
    } else {
      LexAfterPrefix(Pad(m, w), x, y);
    }
  }

  function TimePart(d: Date): string
    requires d.Date?
  {
    Pad(d.hour, 2) + (Pad(d.minute, 2) + (Pad(d.second, 2) + (Pad(d.millis, 3) + "Z")))
  }

  predicate EarlierTime(a: Date, b: Date)
    requires a.Date? && b.Date?
  {
    if a.hour != b.hour then a.hour < b.hour
    else if a.minute != b.minute then a.minute < b.minute
    else if a.second != b.second then a.second < b.second
    else a.millis < b.millis
  }

  lemma TimesSort(a: Date, b: Date)
    requires InRange(a) && InRange(b) && EarlierTime(a, b)
    ensures LexLess(TimePart(a), TimePart(b))
  {
    assert Pow10(2) == 100 && Pow10(3) == 1000;
    var a3, b3 := Pad(a.millis, 3) + "Z", Pad(b.millis, 3) + "Z";
    var a2, b2 := Pad(a.second, 2) + a3, Pad(b.second, 2) + b3;
    var a1, b1 := Pad(a.minute, 2) + a2, Pad(b.minute, 2) + b2;
    if a.hour == b.hour {
      if a.minute == b.minute {
        if a.second == b.second {
          FieldOrders(a.millis, b.millis, 3, "Z", "Z");
        }
        FieldOrders(a.second, b.second, 2, a3, b3);
      }
      FieldOrders(a.minute, b.minute, 2, a2, b2);
    }
    FieldOrders(a.hour, b.hour, 2, a1, b1);
  }

  /** Timestamps of four-digit years sort exactly like the dates they stand for. */
  lemma TimestampsSort(a: Date, b: Date)
    requires InRange(a) && InRange(b)
    ensures LexLess(FormatUtcTimestamp(a), FormatUtcTimestamp(b)) <==> Earlier(a, b)
  {
    if Earlier(a, b) {
      EarlierSorts(a, b);
    } else if a != b {
      EarlierSorts(b, a);
    }
    LexOrders(FormatUtcTimestamp(a), FormatUtcTimestamp(b), FormatUtcTimestamp(a));
  }

  lemma EarlierSorts(a: Date, b: Date)
    requires InRange(a) && InRange(b) && Earlier(a, b)
    ensures LexLess(FormatUtcTimestamp(a), FormatUtcTimestamp(b))
  {
    assert Pow10(4) == 10000 && Pow10(2) == 100;
    var a3, b3 := "T" + TimePart(a), "T" + TimePart(b);
    var a2, b2 := Pad(a.day, 2) + a3, Pad(b.day, 2) + b3;
    var a1, b1 := Pad(a.month, 2) + a2, Pad(b.month, 2) + b2;
    if a.year == b.year {
      if a.month == b.month {
        if a.day == b.day {
          TimesSort(a, b);
          LexAfterPrefix("T", TimePart(a), TimePart(b));
        }
        FieldOrders(a.day, b.day, 2, a3, b3);
      }
      FieldOrders(a.month, b.month, 2, a2, b2);
    }
    FieldOrders(a.year, b.year, 4, a1, b1);
  }

  // ---- the local version ----

  predicate IsHexChar(c: char) {
    '0' <= c <= '9' || 'a' <= c <= 'f' || 'A' <= c <= 'F'
  }

  predicate IsPayloadHash(s: string) {
    |s| >= 8 && forall i | 0 <= i < |s| :: IsHexChar(s[i])
  }

  function LowerHex(s: string): (r: string)
    ensures |r| == |s|
  {
    seq(|s|, i requires 0 <= i < |s| => if 'A' <= s[i] <= 'F' then ((s[i] as int) + 32) as char else s[i])
  }

  datatype Problem = BadSource | BadHash | BadDate

  datatype Derived = Ok(version: Version) | Err(problem: Problem)

  /** `source` is what the version text parses to, if it does. */
  function DeriveLocalVersion(source: Option<Version>, date: Date, payloadHash: string): Derived {
    if source.None? then Err(BadSource)
    else if !IsPayloadHash(payloadHash) then Err(BadHash)
    else if date.Invalid? then Err(BadDate)
    else
      var v := source.value;
      var hash := LowerHex(if |payloadHash| > 12 then payloadHash[..12] else payloadHash);
      Ok(Version(v.major, v.minor, if v.pre != [] then v.patch else v.patch + 1,
                 (if v.pre != [] then v.pre else [Num(0)])
                 + [Alpha("local"), Alpha(FormatUtcTimestamp(date)), Alpha("p" + hash)]))
  }

  lemma {:induction false} PreAfterPrefix(p: seq<Ident>, x: seq<Ident>, y: seq<Ident>)
    ensures PreLess(p + x, p + y) == PreLess(x, y)
  {
    if p == [] {
      assert p + x == x && p + y == y;
    } else {
      PreAfterPrefix(p[1..], x, y);
      IdentOrders(p[0], p[0], p[0]);
      assert (p + x)[1..] == p[1..] + x && (p + y)[1..] == p[1..] + y;
    }
  }

  /** A local build says so, and ranks above its source and below the release that follows it. */
  lemma LocalVersionIsBetween(source: Version, date: Date, payloadHash: string)
    ensures DeriveLocalVersion(Some(source), date, payloadHash).Ok? <==>
      && date.Date? && |payloadHash| >= 8
      && forall i | 0 <= i < |payloadHash| ::
           var c := payloadHash[i]; '0' <= c <= '9' || 'a' <= c <= 'f' || 'A' <= c <= 'F'
    ensures DeriveLocalVersion(Some(source), date, payloadHash).Ok? ==>
      var local := DeriveLocalVersion(Some(source), date, payloadHash).version;
      && Alpha("local") in local.pre && Less(source, local)
      && Less(local, Version(source.major, source.minor,
                             if source.pre == [] then source.patch + 1 else source.patch, []))
  {
    var derived := DeriveLocalVersion(Some(source), date, payloadHash);
    if derived.Ok? && source.pre != [] {
      var more := derived.version.pre[|source.pre|..];
      PreAfterPrefix(source.pre, [], more);
      assert source.pre + [] == source.pre && source.pre + more == derived.version.pre;
    }
  }

  /** Of two local builds of one source, the one with the later date ranks higher, whatever they hold. */
  lemma LaterDateRanksHigher(source: Version, a: Date, b: Date, hashA: string, hashB: string)
    requires InRange(a) && InRange(b) && Earlier(a, b) && IsPayloadHash(hashA) && IsPayloadHash(hashB)
    ensures Less(DeriveLocalVersion(Some(source), a, hashA).version, DeriveLocalVersion(Some(source), b, hashB).version)
  {
    var x, y := DeriveLocalVersion(Some(source), a, hashA).version, DeriveLocalVersion(Some(source), b, hashB).version;
    var head := (if source.pre != [] then source.pre else [Num(0)]) + [Alpha("local")];
    var n := |head|;
    assert x.pre == head + x.pre[n..] && y.pre == head + y.pre[n..];
    PreAfterPrefix(head, x.pre[n..], y.pre[n..]);
    TimestampsSort(a, b);
    assert x.pre[n..][0] == Alpha(FormatUtcTimestamp(a)) && y.pre[n..][0] == Alpha(FormatUtcTimestamp(b));
  }

  /** The same hexadecimal digit, in either case. */
  predicate IsSameDigit(a: char, b: char) {
    a == b || ('A' <= a <= 'F' && b as int == a as int + 32) || ('A' <= b <= 'F' && a as int == b as int + 32)
  }

  /** Two builds of one source and date get the same version exactly when the first twelve digits of their
      hashes are the same. */
  lemma HashesTellBuildsApart(source: Version, date: Date, a: string, b: string)
    requires date.Date? && IsPayloadHash(a) && IsPayloadHash(b)
    ensures DeriveLocalVersion(Some(source), date, a) == DeriveLocalVersion(Some(source), date, b)
      <==> (|a| == |b| || (|a| >= 12 && |b| >= 12))
           && forall i | 0 <= i < |a| && i < |b| && i < 12 :: IsSameDigit(a[i], b[i])
  {
    var x, y := if |a| > 12 then a[..12] else a, if |b| > 12 then b[..12] else b;
    LowerHexTellsApart(x, y);
    var v, w := DeriveLocalVersion(Some(source), date, a).version, DeriveLocalVersion(Some(source), date, b).version;
    var base := if source.pre != [] then source.pre else [Num(0)];
    var head := base + [Alpha("local"), Alpha(FormatUtcTimestamp(date))];
    assert v.pre == head + [Alpha("p" + LowerHex(x))] && w.pre == head + [Alpha("p" + LowerHex(y))];
    LastTellsApart(head, Alpha("p" + LowerHex(x)), Alpha("p" + LowerHex(y)));
    assert ("p" + LowerHex(x))[1..] == LowerHex(x) && ("p" + LowerHex(y))[1..] == LowerHex(y);
  }

  lemma LastTellsApart<T>(head: seq<T>, x: T, y: T)
    ensures head + [x] == head + [y] <==> x == y
  {
    assert (head + [x])[|head|] == x && (head + [y])[|head|] == y;
  }

  lemma LowerHexTellsApart(x: string, y: string)
    requires forall i | 0 <= i < |x| :: IsHexChar(x[i])
    requires forall i | 0 <= i < |y| :: IsHexChar(y[i])
    ensures LowerHex(x) == LowerHex(y) <==> |x| == |y| && forall i | 0 <= i < |x| :: IsSameDigit(x[i], y[i])
  {
    if LowerHex(x) == LowerHex(y) {
      forall i | 0 <= i < |x| ensures IsSameDigit(x[i], y[i]) {
        assert LowerHex(x)[i] == LowerHex(y)[i];
      }
    }
  }

  /** The example of section 11: 1.0.0 < 2.0.0 < 2.1.0 < 2.1.1. */
  lemma ReleasesRank()
    ensures Less(Version(1, 0, 0, []), Version(2, 0, 0, [])) && Less(Version(2, 0, 0, []), Version(2, 1, 0, []))
    ensures Less(Version(2, 1, 0, []), Version(2, 1, 1, []))
  {
  }

  /** The example of section 11: 1.0.0-alpha < -alpha.1 < -alpha.beta < -beta < -beta.2 < -beta.11 < -rc.1 < 1.0.0. */
  lemma PreReleasesRank(major: nat, minor: nat, patch: nat)
    ensures
      var pre := [[Alpha("alpha")], [Alpha("alpha"), Num(1)], [Alpha("alpha"), Alpha("beta")], [Alpha("beta")],
                  [Alpha("beta"), Num(2)], [Alpha("beta"), Num(11)], [Alpha("rc"), Num(1)], []];
      forall i | 0 <= i < 7 :: Less(Version(major, minor, patch, pre[i]), Version(major, minor, patch, pre[i + 1]))
  {
    LexLessAt("alpha", "beta");
    LexLessAt("beta", "rc");
  }

  lemma LexLessAt(a: string, b: string)
    requires a != "" && b != "" && a[0] < b[0]
    ensures LexLess(a, b)
  {
  }

  lemma {:induction false} PadHasWidth(n: nat, w: nat)
    ensures |Pad(n, w)| == w
  {
    if w > 0 {
      PadHasWidth(n / 10, w - 1);
    }
  }

  /** Four digits of the year, then two each for month and day, the letter T, two each for hour, minute and
      second, three for the milliseconds, and the letter Z. */
  lemma TimestampParts(d: Date)
    requires d.Date?
    ensures
      var t := FormatUtcTimestamp(d);
      && |t| == 19 && t[..4] == Pad(d.year, 4) && t[4..6] == Pad(d.month, 2) && t[6..8] == Pad(d.day, 2)
      && t[8] == 'T' && t[9..11] == Pad(d.hour, 2) && t[11..13] == Pad(d.minute, 2)
      && t[13..15] == Pad(d.second, 2) && t[15..18] == Pad(d.millis, 3) && t[18] == 'Z'
  {
    PadHasWidth(d.year, 4);
    PadHasWidth(d.month, 2);
    PadHasWidth(d.day, 2);
    PadHasWidth(d.hour, 2);
    PadHasWidth(d.minute, 2);
    PadHasWidth(d.second, 2);
    PadHasWidth(d.millis, 3);
  }

  function ValueOf(s: string): int {
    if s == "" then 0 else ValueOf(s[..|s| - 1]) * 10 + (s[|s| - 1] as int - '0' as int)
  }

  /** The digits of a number that fits. */
  lemma {:induction false} PadReadsBack(n: nat, w: nat)
    requires n < Pow10(w)
    ensures ValueOf(Pad(n, w)) == n
  {
    if w > 0 {
      PadReadsBack(n / 10, w - 1);
    }
  }
}
