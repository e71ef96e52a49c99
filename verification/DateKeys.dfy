/**
 Dates as text keys: zero-padded fields whose text order is meant to be the order in
 time (crates/prose-store/src/lib.rs:391-416; the format of section 5.6 of RFC 3339).
 */
module DateKeys {
  import opened Basics
  import opened StoreKeys
  import opened Decimals

  function Pow10(w: nat): (p: nat)
    ensures p > 0
  {
    if w == 0 then 1 else 10 * Pow10(w - 1)
  }

  function Zeros(n: nat): (s: string)
    ensures |s| == n
  {
    if n == 0 then [] else ['0'] + Zeros(n - 1)
  }

  /** The formatter's `{:0w}`: as many digits as it takes, at least `w`. */
  function Padded(n: nat, w: nat): string {
    if |Decimal(n)| < w then Zeros(w - |Decimal(n)|) + Decimal(n) else Decimal(n)
  }

  /** The last `w` decimal digits of `n`. */
  function FixedWidth(n: nat, w: nat): (s: string)
    ensures |s| == w
  {
    if w == 0 then [] else FixedWidth(n / 10, w - 1) + [Digit(n % 10)]
  }

  // ---- Fixed width keeps the order ----

  lemma {:induction false} ZerosAppend(n: nat)
    ensures Zeros(n + 1) == Zeros(n) + ['0']
  {
    if n > 0 { ZerosAppend(n - 1); }
  }

  lemma {:induction false} ZeroIsZeros(w: nat)
    ensures FixedWidth(0, w) == Zeros(w)
  {
    if w > 0 {
      ZeroIsZeros(w - 1);
      ZerosAppend(w - 1);
    }
  }

  lemma {:induction false} PaddedIsFixedWidth(n: nat, w: nat)
    requires w > 0 && n < Pow10(w)
    ensures Padded(n, w) == FixedWidth(n, w) && |Decimal(n)| <= w
  {
    if n < 10 {
      ZeroIsZeros(w - 1);
      assert w > 1 ==> Zeros(w - 1) + [Digit(n)] == Padded(n, w);
    } else {
      assert Pow10(w) == 10 * Pow10(w - 1);
      PaddedIsFixedWidth(n / 10, w - 1);
      var z, front := Zeros(w - |Decimal(n)|), Decimal(n / 10);
      assert z + (front + [Digit(n % 10)]) == (z + front) + [Digit(n % 10)];
      assert |z| == 0 ==> z + front == front;
    }
  }

  lemma {:induction false} TextLessExtends(a: string, x: string, b: string, y: string)
    requires |a| == |b| && TextLess(a, b)
    ensures TextLess(a + x, b + y)
  {
    assert (a + x)[1..] == a[1..] + x && (b + y)[1..] == b[1..] + y;
    if a[0] == b[0] { TextLessExtends(a[1..], x, b[1..], y); }
  }

  lemma {:induction false} CommonPrefixCancels(p: string, a: string, b: string)
    ensures TextLess(p + a, p + b) <==> TextLess(a, b)
  {
    if p == [] {
      assert p + a == a && p + b == b;
    } else {
      assert (p + a)[1..] == p[1..] + a && (p + b)[1..] == p[1..] + b;
      CommonPrefixCancels(p[1..], a, b);
    }
  }

  /** Numbers written with the same number of digits compare as text the way they compare as numbers. */
  lemma {:induction false} FixedWidthIsMonotone(n: nat, m: nat, w: nat)
    requires n < m < Pow10(w)
    ensures TextLess(FixedWidth(n, w), FixedWidth(m, w))
  {
    if w == 0 {
      assert false;
    } else {
      var a, b, x, y := FixedWidth(n / 10, w - 1), FixedWidth(m / 10, w - 1), [Digit(n % 10)], [Digit(m % 10)];
      if n / 10 < m / 10 {
        FixedWidthIsMonotone(n / 10, m / 10, w - 1);
        TextLessExtends(a, x, b, y);
      } else {
        CommonPrefixCancels(a, x, y);
      }
    }
  }

  // ---- Several fields ----

  datatype Field = Field(width: nat, separator: string)

  ghost predicate Fit(vs: seq<nat>, fs: seq<Field>) {
    |vs| == |fs| && forall i :: 0 <= i < |vs| ==> vs[i] < Pow10(fs[i].width)
  }

  function EncodeFields(vs: seq<nat>, fs: seq<Field>): string
    requires |vs| == |fs|
  {
    if vs == [] then [] else FixedWidth(vs[0], fs[0].width) + (fs[0].separator + EncodeFields(vs[1..], fs[1..]))
  }

  predicate LexBefore(vs: seq<nat>, us: seq<nat>)
    requires |vs| == |us|
  {
    vs != [] && (vs[0] < us[0] || (vs[0] == us[0] && LexBefore(vs[1..], us[1..])))
  }

  /** One field followed by the rest orders by the field first. */
  lemma FieldThenRest(n: nat, m: nat, w: nat, x: string, y: string)
    requires n < Pow10(w) && m < Pow10(w)
    ensures TextLess(FixedWidth(n, w) + x, FixedWidth(m, w) + y) <==> n < m || (n == m && TextLess(x, y))
    ensures FixedWidth(n, w) + x == FixedWidth(m, w) + y <==> n == m && x == y
  {
    var a, b := FixedWidth(n, w), FixedWidth(m, w);
    ConcatIsInjective(a, x, b, y);
    TextOrderIsTotal(a, b);
    TextOrderIsTotal(a + x, b + y);
    if n < m {
      FixedWidthIsMonotone(n, m, w);
      TextLessExtends(a, x, b, y);
    } else if m < n {
      FixedWidthIsMonotone(m, n, w);
      TextLessExtends(b, y, a, x);
    } else {
      CommonPrefixCancels(a, x, y);
    }
  }

  lemma FirstFieldDecides(n: nat, m: nat, f: Field, r: string, q: string)
    requires n < Pow10(f.width) && m < Pow10(f.width)
    ensures var a, b := FixedWidth(n, f.width) + (f.separator + r), FixedWidth(m, f.width) + (f.separator + q);
            && (TextLess(a, b) <==> n < m || (n == m && TextLess(r, q)))
            && (a == b <==> n == m && r == q)
  {
    FieldThenRest(n, m, f.width, f.separator + r, f.separator + q);
    CommonPrefixCancels(f.separator, r, q);
    ConcatIsInjective(f.separator, r, f.separator, q);
  }

  lemma HeadAndTail<T>(a: seq<T>, b: seq<T>)
    requires a != [] && b != []
    ensures a == b <==> a[0] == b[0] && a[1..] == b[1..]
  {
    assert a == [a[0]] + a[1..] && b == [b[0]] + b[1..];
  }

  lemma {:induction false} FieldsKeepOrder(vs: seq<nat>, us: seq<nat>, fs: seq<Field>)
    requires Fit(vs, fs) && Fit(us, fs)
    ensures TextLess(EncodeFields(vs, fs), EncodeFields(us, fs)) <==> LexBefore(vs, us)
    ensures EncodeFields(vs, fs) == EncodeFields(us, fs) <==> vs == us
  {
    if vs != [] {
      FirstFieldDecides(vs[0], us[0], fs[0], EncodeFields(vs[1..], fs[1..]), EncodeFields(us[1..], fs[1..]));
      FieldsKeepOrder(vs[1..], us[1..], fs[1..]);
      HeadAndTail(vs, us);
    }
  }

  lemma ConcatIsInjective<T>(a: seq<T>, x: seq<T>, b: seq<T>, y: seq<T>)
    requires |a| == |b|
    ensures a + x == b + y <==> a == b && x == y
  {
    if a + x == b + y {
      assert a == (a + x)[..|a|] && b == (b + y)[..|b|];
      assert x == (a + x)[|a|..] && y == (b + y)[|b|..];
    }
  }

  // ---- The calendar ----

  datatype Timestamp = Timestamp(year: nat, month: nat, day: nat, hour: nat, minute: nat, second: nat, nanos: nat)

  predicate Leap(y: nat) { y % 4 == 0 && (y % 100 != 0 || y % 400 == 0) }

  function DaysInMonth(y: nat, m: nat): nat {
    if m == 2 then (if Leap(y) then 29 else 28) else if m in {4, 6, 9, 11} then 30 else 31
  }

  function DaysBeforeMonth(y: nat, m: nat): nat {
    if m <= 1 then 0 else DaysBeforeMonth(y, m - 1) + DaysInMonth(y, m - 1)
  }

  function DaysBeforeYear(y: nat): nat { if y == 0 then 0 else DaysBeforeYear(y - 1) + DaysBeforeMonth(y - 1, 13) }

  predicate ValidDate(y: nat, m: nat, d: nat) { 1 <= m <= 12 && 1 <= d <= DaysInMonth(y, m) }

  predicate Valid(t: Timestamp) {
    ValidDate(t.year, t.month, t.day) && t.hour < 24 && t.minute < 60 && t.second < 60 && t.nanos < 1_000_000_000
  }

  /** Days since the start of year 0. */
  function DayNumber(y: nat, m: nat, d: nat): int { DaysBeforeYear(y) + DaysBeforeMonth(y, m) + d - 1 }

  function Seconds(t: Timestamp): int {
    DayNumber(t.year, t.month, t.day) * 86_400 + t.hour * 3_600 + t.minute * 60 + t.second
  }

  /** Nanoseconds since the start of year 0. */
  function Instant(t: Timestamp): int { Seconds(t) * 1_000_000_000 + t.nanos }

  /** An instant truncated to seconds. */
  function Truncated(t: Timestamp): int { Instant(t) / 1_000_000_000 }

  lemma TruncatedIsSeconds(t: Timestamp)
    requires Valid(t)
    ensures Truncated(t) == Seconds(t)
  {
  }

  /** The days before a year, in closed form: a leap day every four years, less the centuries, plus every fourth. */
  lemma {:induction false} YearsInClosedForm(y: nat)
    ensures DaysBeforeYear(y) == 365 * y + LeapDays(y)
  {
    if y > 0 {
      var before := y - 1;
      YearsInClosedForm(before);
      YearStep(before);
      assert LeapDays(y) == LeapDays(before) + (if Leap(before) then 1 else 0) by { LeapDaysStep(before); }
    }
  }

  lemma YearLength(y: nat, m: nat)
    requires m == 13
    ensures DaysBeforeMonth(y, m) == 365 + if Leap(y) then 1 else 0
  {
    MonthsInClosedForm(y, m);
  }

  lemma YearStep(y: nat)
    ensures DaysBeforeYear(y + 1) == DaysBeforeYear(y) + 365 + if Leap(y) then 1 else 0
  {
    YearLength(y, 13);
  }

  /** The leap days before a year. */
  function LeapDays(y: nat): int { (y + 3) / 4 - (y + 99) / 100 + (y + 399) / 400 }

  lemma LeapDaysStep(y: nat)
    ensures LeapDays(y + 1) == LeapDays(y) + if Leap(y) then 1 else 0
  {
    assert (y + 4) / 4 == (y + 3) / 4 + if y % 4 == 0 then 1 else 0;
    assert (y + 100) / 100 == (y + 99) / 100 + if y % 100 == 0 then 1 else 0;
    assert (y + 400) / 400 == (y + 399) / 400 + if y % 400 == 0 then 1 else 0;
  }

  lemma {:induction false} MonthsInClosedForm(y: nat, m: nat)
    requires 1 <= m <= 13
    ensures DaysBeforeMonth(y, m) ==
            [0, 31, 59, 90, 120, 151, 181, 212, 243, 273, 304, 334, 365][m - 1] + if m > 2 && Leap(y) then 1 else 0
  {
    if m > 1 { MonthsInClosedForm(y, m - 1); }
  }

  lemma {:induction false} MonthsFollow(y: nat, m: nat, n: nat)
    requires 1 <= m < n
    ensures DaysBeforeMonth(y, m) + DaysInMonth(y, m) <= DaysBeforeMonth(y, n)
    decreases n
  {
    if m < n - 1 { MonthsFollow(y, m, n - 1); }
  }

  lemma {:induction false} YearsFollow(y: nat, z: nat)
    requires y < z
    ensures DaysBeforeYear(y) + DaysBeforeMonth(y, 13) <= DaysBeforeYear(z)
    decreases z
  {
    if y < z - 1 { YearsFollow(y, z - 1); }
  }

  /** An earlier date has a smaller day number: no month or year runs into the next. */
  lemma DaysFollow(y: nat, m: nat, d: nat, y': nat, m': nat, d': nat)
    requires ValidDate(y, m, d) && ValidDate(y', m', d')
    requires y < y' || (y == y' && (m < m' || (m == m' && d < d')))
    ensures DayNumber(y, m, d) < DayNumber(y', m', d')
  {
    if y < y' {
      YearsFollow(y, y');
      MonthsFollow(y, m, 13);
    } else if m < m' {
      MonthsFollow(y, m, m');
    }
  }

  lemma DatesAreOrdered(y: nat, m: nat, d: nat, y': nat, m': nat, d': nat)
    requires ValidDate(y, m, d) && ValidDate(y', m', d')
    ensures LexBefore([y, m, d], [y', m', d']) <==> DayNumber(y, m, d) < DayNumber(y', m', d')
  {
    LexOfThree(y, m, d, y', m', d');
    if y < y' || (y == y' && (m < m' || (m == m' && d < d'))) {
      DaysFollow(y, m, d, y', m', d');
    } else if y != y' || m != m' || d != d' {
      DaysFollow(y', m', d', y, m, d);
    }
  }

  lemma LexHead(a: nat, r: seq<nat>, x: nat, q: seq<nat>)
    requires |r| == |q|
    ensures LexBefore([a] + r, [x] + q) <==> a < x || (a == x && LexBefore(r, q))
  {
    assert ([a] + r)[1..] == r && ([x] + q)[1..] == q;
  }

  lemma LexOfThree(a: nat, b: nat, c: nat, x: nat, y: nat, z: nat)
    ensures LexBefore([a, b, c], [x, y, z]) <==> a < x || (a == x && (b < y || (b == y && c < z)))
  {
    assert [a, b, c] == [a] + [b, c] && [x, y, z] == [x] + [y, z];
    assert [b, c] == [b] + [c] && [y, z] == [y] + [z] && [c] == [c] + [] && [z] == [z] + [];
    LexHead(a, [b, c], x, [y, z]);
    LexHead(b, [c], y, [z]);
    LexHead(c, [], z, []);
  }

  function TimeOfDay(t: Timestamp): int { t.hour * 3_600 + t.minute * 60 + t.second }

  lemma TimesAreOrdered(t: Timestamp, u: Timestamp)
    requires Valid(t) && Valid(u)
    ensures LexBefore([t.hour, t.minute, t.second], [u.hour, u.minute, u.second]) <==> TimeOfDay(t) < TimeOfDay(u)
  {
    LexOfThree(t.hour, t.minute, t.second, u.hour, u.minute, u.second);
  }

  lemma {:induction false} LexConcat(a: seq<nat>, b: seq<nat>, x: seq<nat>, y: seq<nat>)
    requires |a| == |x| && |b| == |y|
    ensures LexBefore(a + b, x + y) <==> LexBefore(a, x) || (a == x && LexBefore(b, y))
  {
    if a == [] {
      assert a + b == b && x + y == y;
    } else {
      assert (a + b)[1..] == a[1..] + b && (x + y)[1..] == x[1..] + y;
      LexConcat(a[1..], b, x[1..], y);
      HeadAndTail(a, x);
    }
  }

  /** Field by field order is order in time. */
  lemma FieldsFollowTime(t: Timestamp, u: Timestamp)
    requires Valid(t) && Valid(u)
    ensures LexBefore(Values(t), Values(u)) <==> Seconds(t) < Seconds(u)
    ensures Values(t) == Values(u) <==> Seconds(t) == Seconds(u)
  {
    var a, b := [t.year, t.month, t.day], [t.hour, t.minute, t.second];
    var x, y := [u.year, u.month, u.day], [u.hour, u.minute, u.second];
    assert Values(t) == a + b && Values(u) == x + y;
    LexConcat(a, b, x, y);
    DatesAreOrdered(t.year, t.month, t.day, u.year, u.month, u.day);
    DatesAreOrdered(u.year, u.month, u.day, t.year, t.month, t.day);
    TimesAreOrdered(t, u);
    TimesAreOrdered(u, t);
    SameDateSameDay(t, u);
    ConcatIsInjective(a, b, x, y);
  }

  lemma SameDateSameDay(t: Timestamp, u: Timestamp)
    requires Valid(t) && Valid(u)
    ensures [t.year, t.month, t.day] == [u.year, u.month, u.day] <==>
            DayNumber(t.year, t.month, t.day) == DayNumber(u.year, u.month, u.day)
    ensures [t.hour, t.minute, t.second] == [u.hour, u.minute, u.second] <==> TimeOfDay(t) == TimeOfDay(u)
  {
    DatesAreOrdered(t.year, t.month, t.day, u.year, u.month, u.day);
    DatesAreOrdered(u.year, u.month, u.day, t.year, t.month, t.day);
    LexOfThree(t.year, t.month, t.day, u.year, u.month, u.day);
    LexOfThree(u.year, u.month, u.day, t.year, t.month, t.day);
    SameThree(t.year, t.month, t.day, u.year, u.month, u.day);
    SameThree(t.hour, t.minute, t.second, u.hour, u.minute, u.second);
  }

  lemma SameThree(a: nat, b: nat, c: nat, x: nat, y: nat, z: nat)
    ensures [a, b, c] == [x, y, z] <==> a == x && b == y && c == z
  {
    var s, r := [a, b, c], [x, y, z];
    if s == r { assert s[0] == r[0] && s[1] == r[1] && s[2] == r[2]; }
  }

  // ---- Keys ----

  /** The format string `{:04}-{:02}-{:02}T{:02}:{:02}:{:02}Z`, and `%Y-%m-%d` for dates. */
  const TIMESTAMP_FIELDS :=
    [Field(4, "-"), Field(2, "-"), Field(2, "T"), Field(2, ":"), Field(2, ":"), Field(2, "Z")]
  const DATE_FIELDS := [Field(4, "-"), Field(2, "-"), Field(2, "")]

  function Format(vs: seq<nat>, fs: seq<Field>): string
    requires |vs| == |fs|
  {
    if vs == [] then [] else Padded(vs[0], fs[0].width) + (fs[0].separator + Format(vs[1..], fs[1..]))
  }

  function Values(t: Timestamp): seq<nat> { [t.year, t.month, t.day, t.hour, t.minute, t.second] }

  function TimestampKey(t: Timestamp): string { Format(Values(t), TIMESTAMP_FIELDS) }

  function DateKey(year: nat, month: nat, day: nat): string { Format([year, month, day], DATE_FIELDS) }

  lemma SmallPowers()
    ensures Pow10(2) == 100 && Pow10(4) == 10000
  {
    assert Pow10(1) == 10 * Pow10(0);
    assert Pow10(2) == 10 * Pow10(1);
    assert Pow10(3) == 10 * Pow10(2);
    assert Pow10(4) == 10 * Pow10(3);
  }

  /** As long as every value fits its field, padding never adds a digit too many. */
  lemma {:induction false} FormatIsFixedWidth(vs: seq<nat>, fs: seq<Field>)
    requires Fit(vs, fs) && forall i :: 0 <= i < |fs| ==> fs[i].width > 0
    ensures Format(vs, fs) == EncodeFields(vs, fs)
  {
    if vs != [] {
      PaddedIsFixedWidth(vs[0], fs[0].width);
      FormatIsFixedWidth(vs[1..], fs[1..]);
    }
  }

  /**
   Within years 0 to 9999 the text order of timestamp keys is the order in time, truncated to
   seconds, and two timestamps have one key exactly if they lie in one second.
   */
  lemma TimestampKeysKeepOrder(t: Timestamp, u: Timestamp)
    requires Valid(t) && Valid(u) && t.year <= 9999 && u.year <= 9999
    ensures TextLess(TimestampKey(t), TimestampKey(u)) <==> Truncated(t) < Truncated(u)
    ensures TimestampKey(t) == TimestampKey(u) <==> Truncated(t) == Truncated(u)
  {
    KeysFollowFields(t, u);
    FieldsFollowTime(t, u);
    TruncatedIsSeconds(t);
    TruncatedIsSeconds(u);
  }

  lemma KeysFollowFields(t: Timestamp, u: Timestamp)
    requires Valid(t) && Valid(u) && t.year <= 9999 && u.year <= 9999
    ensures TextLess(TimestampKey(t), TimestampKey(u)) <==> LexBefore(Values(t), Values(u))
    ensures TimestampKey(t) == TimestampKey(u) <==> Values(t) == Values(u)
  {
    SmallPowers();
    FormatIsFixedWidth(Values(t), TIMESTAMP_FIELDS);
    FormatIsFixedWidth(Values(u), TIMESTAMP_FIELDS);
    FieldsKeepOrder(Values(t), Values(u), TIMESTAMP_FIELDS);
  }

  lemma DateKeysKeepOrder(y: nat, m: nat, d: nat, y': nat, m': nat, d': nat)
    requires ValidDate(y, m, d) && ValidDate(y', m', d') && y <= 9999 && y' <= 9999
    ensures TextLess(DateKey(y, m, d), DateKey(y', m', d')) <==> DayNumber(y, m, d) < DayNumber(y', m', d')
  {
    SmallPowers();
    FormatIsFixedWidth([y, m, d], DATE_FIELDS);
    FormatIsFixedWidth([y', m', d'], DATE_FIELDS);
    FieldsKeepOrder([y, m, d], [y', m', d'], DATE_FIELDS);
    DatesAreOrdered(y, m, d, y', m', d');
  }

  // ---- What a key says ----

  lemma {:induction false} ZerosAreZero(k: nat)
    ensures AllDigits(Zeros(k)) && Number(Zeros(k)) == 0
  {
    if k > 0 {
      ZerosAreZero(k - 1);
      ZerosAppend(k - 1);
    }
  }

  lemma {:induction false} LeadingZerosDoNotMatter(k: nat, s: string)
    requires AllDigits(s)
    ensures AllDigits(Zeros(k) + s) && Number(Zeros(k) + s) == Number(s)
    decreases |s|
  {
    ZerosAreZero(k);
    if s == "" {
      assert Zeros(k) + s == Zeros(k);
    } else {
      var front := s[..|s| - 1];
      LeadingZerosDoNotMatter(k, front);
      assert (Zeros(k) + s)[..|Zeros(k) + s| - 1] == Zeros(k) + front;
    }
  }

  /** The digits `s` stand for `n`. */
  predicate Shows(s: string, n: nat) { AllDigits(s) && Number(s) == n }

  lemma PaddedShows(n: nat, w: nat)
    ensures Shows(Padded(n, w), n)
  {
    DecimalRoundTrip(n);
    if |Decimal(n)| < w { LeadingZerosDoNotMatter(w - |Decimal(n)|, Decimal(n)); }
  }

  /** Two digits for every number that needs no more. */
  lemma TwoDigits(n: nat)
    requires n < 100
    ensures |Padded(n, 2)| == 2 && Shows(Padded(n, 2), n)
  {
    SmallPowers();
    PaddedIsFixedWidth(n, 2);
    PaddedShows(n, 2);
  }

  lemma {:induction false} DigitsNeeded(n: nat, w: nat)
    requires n >= Pow10(w)
    ensures |Decimal(n)| > w
  {
    if w > 0 { DigitsNeeded(n / 10, w - 1); }
  }

  lemma YearDigits(n: nat)
    ensures |Padded(n, 4)| >= 4 && (|Padded(n, 4)| == 4 <==> n <= 9999) && Shows(Padded(n, 4), n)
  {
    SmallPowers();
    PaddedShows(n, 4);
    if n <= 9999 { PaddedIsFixedWidth(n, 4); } else { DigitsNeeded(n, 4); }
  }

  /** A string of the form year-month-day, read from its end. */
  ghost predicate ShowsDate(s: string, year: nat, month: nat, day: nat) {
    var n := |s|;
    && n >= 10 && s[n - 6] == '-' && s[n - 3] == '-'
    && Shows(s[..n - 6], year) && Shows(s[n - 5..n - 3], month) && Shows(s[n - 2..], day)
  }

  /** A string of the form hour:minute:second. */
  ghost predicate ShowsTime(s: string, hour: nat, minute: nat, second: nat) {
    && |s| == 8 && s[2] == ':' && s[5] == ':'
    && Shows(s[..2], hour) && Shows(s[3..5], minute) && Shows(s[6..], second)
  }

  lemma FormatOne(a: nat, f: Field)
    ensures Format([a], [f]) == Padded(a, f.width) + f.separator
  {
    assert [a][1..] == [] && f.separator + [] == f.separator;
  }

  lemma FormatHead(v: nat, vs: seq<nat>, f: Field, fs: seq<Field>)
    requires |vs| == |fs|
    ensures Format([v] + vs, [f] + fs) == Padded(v, f.width) + f.separator + Format(vs, fs)
  {
    assert ([v] + vs)[1..] == vs && ([f] + fs)[1..] == fs;
    Regroup(Padded(v, f.width), f.separator, Format(vs, fs));
  }

  lemma {:induction false} FormatAppends(vs: seq<nat>, us: seq<nat>, fs: seq<Field>, gs: seq<Field>)
    requires |vs| == |fs| && |us| == |gs|
    ensures Format(vs + us, fs + gs) == Format(vs, fs) + Format(us, gs)
  {
    if vs == [] {
      assert vs + us == us && fs + gs == gs;
    } else {
      FormatAppends(vs[1..], us, fs[1..], gs);
      FormatHeads(vs[0], vs[1..], us, fs[0], fs[1..], gs);
      assert vs == [vs[0]] + vs[1..] && fs == [fs[0]] + fs[1..];
    }
  }

  lemma FormatHeads(v: nat, vs: seq<nat>, us: seq<nat>, f: Field, fs: seq<Field>, gs: seq<Field>)
    requires |vs| == |fs| && |us| == |gs| && Format(vs + us, fs + gs) == Format(vs, fs) + Format(us, gs)
    ensures Format([v] + vs + us, [f] + fs + gs) == Format([v] + vs, [f] + fs) + Format(us, gs)
  {
    FormatHead(v, vs, f, fs);
    FormatHead(v, vs + us, f, fs + gs);
    Regroup([v], vs, us);
    Regroup([f], fs, gs);
    Regroup(Padded(v, f.width) + f.separator, Format(vs, fs), Format(us, gs));
  }

  lemma FormatThree(a: nat, b: nat, c: nat, f: Field, g: Field, h: Field)
    ensures Format([a, b, c], [f, g, h]) ==
            Padded(a, f.width) + f.separator + (Padded(b, g.width) + g.separator) + (Padded(c, h.width) + h.separator)
  {
    FormatOne(a, f);
    FormatOne(b, g);
    FormatOne(c, h);
    FormatAppends([a], [b], [f], [g]);
    FormatAppends([a] + [b], [c], [f] + [g], [h]);
    assert [a] + [b] + [c] == [a, b, c] && [f] + [g] + [h] == [f, g, h];
  }

  lemma Rejoin(a: string, x: string, b: string, y: string, c: string, z: string)
    ensures a + x + (b + y) + (c + z) == a + x + b + y + c + z
  {
    Regroup(a + x, b, y);
    Regroup(a + x + b + y, c, z);
  }

  lemma DateInFull(y: nat, m: nat, d: nat)
    ensures DateKey(y, m, d) == Padded(y, 4) + "-" + Padded(m, 2) + "-" + Padded(d, 2)
  {
    FormatThree(y, m, d, Field(4, "-"), Field(2, "-"), Field(2, ""));
    Rejoin(Padded(y, 4), "-", Padded(m, 2), "-", Padded(d, 2), "");
  }

  lemma Slices(a: string, x: char, b: string, y: char, c: string)
    ensures var s := a + [x] + b + [y] + c;
            && s[..|a|] == a && s[|a|] == x && s[|a| + 1..|a| + 1 + |b|] == b
            && s[|a| + 1 + |b|] == y && s[|a| + 2 + |b|..] == c
  {
  }

  lemma DateTextShows(s: string, a: string, b: string, c: string, y: nat, m: nat, d: nat)
    requires s == a + "-" + b + "-" + c && |a| >= 4 && |b| == |c| == 2
    requires Shows(a, y) && Shows(b, m) && Shows(c, d)
    ensures ShowsDate(s, y, m, d) && |s| == |a| + 6
  {
    Slices(a, '-', b, '-', c);
  }

  /** `s` is a date, a `T`, a time and a `Z`. */
  ghost predicate ShowsTimestamp(s: string, t: Timestamp) {
    var n := |s|;
    && n >= 20 && s[n - 10] == 'T' && s[n - 1] == 'Z'
    && ShowsDate(s[..n - 10], t.year, t.month, t.day)
    && ShowsTime(s[n - 9..n - 1], t.hour, t.minute, t.second)
  }

  lemma TimestampTextShows(s: string, date: string, time: string, t: Timestamp)
    requires s == date + "T" + time + "Z"
    requires ShowsDate(date, t.year, t.month, t.day) && ShowsTime(time, t.hour, t.minute, t.second)
    ensures ShowsTimestamp(s, t) && |s| == |date| + 10
  {
    assert s == s + "";
    Slices(date, 'T', time, 'Z', "");
  }

  /** A date key is four digits or more and twice two, with hyphens between, and reads back to its date. */
  lemma DateKeyReadsBack(y: nat, m: nat, d: nat)
    requires ValidDate(y, m, d)
    ensures ShowsDate(DateKey(y, m, d), y, m, d) && (|DateKey(y, m, d)| == 10 <==> y <= 9999)
  {
    DateInFull(y, m, d);
    YearDigits(y);
    TwoDigits(m);
    TwoDigits(d);
    DateTextShows(DateKey(y, m, d), Padded(y, 4), Padded(m, 2), Padded(d, 2), y, m, d);
  }

  function TimeText(t: Timestamp): string {
    Padded(t.hour, 2) + ":" + Padded(t.minute, 2) + ":" + Padded(t.second, 2)
  }

  lemma TimeReadsBack(t: Timestamp)
    requires Valid(t)
    ensures ShowsTime(TimeText(t), t.hour, t.minute, t.second)
  {
    TwoDigits(t.hour);
    TwoDigits(t.minute);
    TwoDigits(t.second);
    Slices(Padded(t.hour, 2), ':', Padded(t.minute, 2), ':', Padded(t.second, 2));
  }

  lemma TimestampInFull(t: Timestamp)
    ensures TimestampKey(t) == DateKey(t.year, t.month, t.day) + "T" + TimeText(t) + "Z"
  {
    var fs, gs := [Field(4, "-"), Field(2, "-"), Field(2, "T")], [Field(2, ":"), Field(2, ":"), Field(2, "Z")];
    assert Values(t) == [t.year, t.month, t.day] + [t.hour, t.minute, t.second] && TIMESTAMP_FIELDS == fs + gs;
    FormatAppends([t.year, t.month, t.day], [t.hour, t.minute, t.second], fs, gs);
    DateInFull(t.year, t.month, t.day);
    FormatThree(t.year, t.month, t.day, fs[0], fs[1], fs[2]);
    Rejoin(Padded(t.year, 4), "-", Padded(t.month, 2), "-", Padded(t.day, 2), "T");
    FormatThree(t.hour, t.minute, t.second, gs[0], gs[1], gs[2]);
    Rejoin(Padded(t.hour, 2), ":", Padded(t.minute, 2), ":", Padded(t.second, 2), "Z");
    Regroup(DateKey(t.year, t.month, t.day) + "T", TimeText(t), "Z");
  }

  /**
   A timestamp key is a date, a `T`, a time and a `Z`, and reads back to its fields whatever
   the year; it has its twenty characters up to year 9999 and more beyond it.
   */
  lemma TimestampKeyReadsBack(t: Timestamp)
    requires Valid(t)
    ensures ShowsTimestamp(TimestampKey(t), t) && (|TimestampKey(t)| == 20 <==> t.year <= 9999)
  {
    TimestampInFull(t);
    DateKeyReadsBack(t.year, t.month, t.day);
    TimeReadsBack(t);
    TimestampTextShows(TimestampKey(t), DateKey(t.year, t.month, t.day), TimeText(t), t);
  }

  // ---- The last year that works ----

  ghost predicate OrderedUpTo(lastYear: nat) {
    forall t, u :: Valid(t) && Valid(u) && t.year <= lastYear && u.year <= lastYear ==>
      (TextLess(TimestampKey(t), TimestampKey(u)) <==> Truncated(t) < Truncated(u))
  }

  /** A number of four or five digits starts with its leading digit. */
  lemma LeadingDigit(n: nat, lead: nat)
    requires 0 < lead < 10 && (n / 1000 == lead || n / 10000 == lead)
    ensures Decimal(n)[0] == Digit(lead) && |Decimal(n)| >= 4
  {
    assert Decimal(n / 10) == Decimal(n / 100) + [Digit(n / 10 % 10)];
    assert Decimal(n / 100) == Decimal(n / 1000) + [Digit(n / 100 % 10)];
    if n / 1000 != lead { assert Decimal(n / 1000) == Decimal(n / 10000) + [Digit(n / 1000 % 10)]; }
  }

  lemma KeyStartsWithYear(t: Timestamp)
    requires |Decimal(t.year)| >= 4
    ensures TimestampKey(t) != [] && TimestampKey(t)[0] == Decimal(t.year)[0]
  {
    assert Padded(t.year, 4) == Decimal(t.year);
  }

  /** Five-digit years starting with 1 sort before all four-digit years that start with a larger digit. */
  lemma FiveDigitYearsSortTooLow(t: Timestamp, u: Timestamp)
    requires Valid(t) && Valid(u) && 2000 <= t.year < 10000 <= u.year < 20000
    ensures Truncated(t) < Truncated(u) && TextLess(TimestampKey(u), TimestampKey(t))
  {
    DaysFollow(t.year, t.month, t.day, u.year, u.month, u.day);
    TruncatedIsSeconds(t);
    TruncatedIsSeconds(u);
    LeadingDigit(t.year, t.year / 1000);
    LeadingDigit(u.year, 1);
    KeyStartsWithYear(t);
    KeyStartsWithYear(u);
    FirstCharacterDecides(TimestampKey(u), TimestampKey(t));
  }

  lemma FirstCharacterDecides(a: string, b: string)
    requires a != [] && b != [] && a[0] < b[0]
    ensures TextLess(a, b)
  {
  }

  lemma OrderFailsBeyond(y: nat, z: nat, lastYear: nat)
    requires 2000 <= y < 10000 <= z < 20000 && z <= lastYear
    ensures !OrderedUpTo(lastYear)
  {
    var t, u := Timestamp(y, 1, 1, 0, 0, 0, 0), Timestamp(z, 1, 1, 0, 0, 0, 0);
    FiveDigitYearsSortTooLow(t, u);
    TextOrderIsTotal(TimestampKey(t), TimestampKey(u));
  }

  /** Text order and time order agree on all years up to `lastYear` exactly when that is at most 9999. */
  lemma OrderKeptExactlyTo9999(lastYear: nat)
    ensures OrderedUpTo(lastYear) <==> lastYear <= 9999
  {
    if lastYear <= 9999 {
      forall t, u | Valid(t) && Valid(u) && t.year <= lastYear && u.year <= lastYear
        ensures TextLess(TimestampKey(t), TimestampKey(u)) <==> Truncated(t) < Truncated(u)
      {
        TimestampKeysKeepOrder(t, u);
      }
    } else {
      OrderFailsBeyond(9999, 10000, lastYear);
    }
  }
}
