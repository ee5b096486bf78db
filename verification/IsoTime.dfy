/** Timezone-aware datetimes, their isoformat text, and how the order of the texts relates to time. */
module IsoTime {
  import opened Decimals
  import opened TextOrder

  /** offset: minutes east of UTC. */
  datatype DateTime = DateTime(
    year: nat, month: nat, day: nat, hour: nat, minute: nat, second: nat, micro: nat, offset: int)

  predicate IsLeap(y: int) {
    y % 4 == 0 && (y % 100 != 0 || y % 400 == 0)
  }

  function DaysInMonth(y: nat, m: nat): nat {
    if m == 2 then (if IsLeap(y) then 29 else 28)
    else if m in {4, 6, 9, 11} then 30 else 31
  }

  predicate Valid(t: DateTime) {
    && 1 <= t.year <= 9999 && 1 <= t.month <= 12 && 1 <= t.day <= DaysInMonth(t.year, t.month)
    && t.hour < 24 && t.minute < 60 && t.second < 60 && t.micro < 1_000_000
    && -1440 < t.offset < 1440
  }

  // --- time

  function DaysBeforeYear(y: int): int {
    var z := y - 1;
    z * 365 + z / 4 - z / 100 + z / 400
  }

  function DaysBeforeMonth(y: nat, m: nat): nat {
    if m <= 1 then 0 else DaysBeforeMonth(y, m - 1) + DaysInMonth(y, m - 1)
  }

  // The proleptic Gregorian ordinal of the date.
  function Ordinal(t: DateTime): int {
    DaysBeforeYear(t.year) + DaysBeforeMonth(t.year, t.month) + t.day
  }

  // Microseconds shown by the local clock, and the instant they denote.
  function Local(t: DateTime): int {
    (((Ordinal(t) * 24 + t.hour) * 60 + t.minute) * 60 + t.second) * 1_000_000 + t.micro
  }

  function Instant(t: DateTime): int {
    Local(t) - t.offset * 60_000_000
  }

  // Field by field, most significant first.
  predicate FieldsBefore(a: DateTime, b: DateTime) {
    || a.year < b.year
    || (a.year == b.year && (a.month < b.month
    || (a.month == b.month && (a.day < b.day
    || (a.day == b.day && (a.hour < b.hour
    || (a.hour == b.hour && (a.minute < b.minute
    || (a.minute == b.minute && (a.second < b.second
    || (a.second == b.second && a.micro < b.micro)))))))))))
  }

  lemma {:induction false} YearsAddUp(y: nat, z: nat)
    requires y <= z
    ensures DaysBeforeYear(y) <= DaysBeforeYear(z)
    decreases z - y
  {
  }

  lemma By4(y: nat)
    ensures y / 4 == (y - 1) / 4 + if y % 4 == 0 then 1 else 0
  {
  }

  lemma By100(y: nat)
    ensures y / 100 == (y - 1) / 100 + if y % 100 == 0 then 1 else 0
    ensures y % 100 == 0 ==> y % 4 == 0
  {
    assert y == 100 * (y / 100) + y % 100;
    assert y % 100 == 0 ==> y == 4 * (25 * (y / 100));
  }

  lemma By400(y: nat)
    ensures y / 400 == (y - 1) / 400 + if y % 400 == 0 then 1 else 0
    ensures y % 400 == 0 ==> y % 100 == 0
  {
  }

  lemma YearStep(y: nat)
    ensures DaysBeforeYear(y + 1) == DaysBeforeYear(y) + if IsLeap(y) then 366 else 365
  {
    By4(y);
    By100(y);
    By400(y);
  }

  lemma {:induction false} MonthsAddUp(y: nat, m: nat, n: nat)
    requires 1 <= m < n <= 13
    ensures DaysBeforeMonth(y, m) + DaysInMonth(y, m) <= DaysBeforeMonth(y, n)
    decreases n
  {
    if m < n - 1 {
      MonthsAddUp(y, m, n - 1);
    }
  }

  lemma WholeYear(y: nat)
    ensures DaysBeforeMonth(y, 13) == if IsLeap(y) then 366 else 365
  {
    assert DaysBeforeMonth(y, 3) == 31 + DaysInMonth(y, 2) by {
      assert DaysBeforeMonth(y, 1) == 0;
      assert DaysBeforeMonth(y, 2) == 31;
    }
    Quarter(y, 3);
    Quarter(y, 6);
    Quarter(y, 9);
    assert DaysBeforeMonth(y, 13) == DaysBeforeMonth(y, 12) + 31;
  }

  lemma Quarter(y: nat, m: nat)
    requires m > 0
    ensures DaysBeforeMonth(y, m + 3)
         == DaysBeforeMonth(y, m) + DaysInMonth(y, m) + DaysInMonth(y, m + 1) + DaysInMonth(y, m + 2)
  {
    assert DaysBeforeMonth(y, m + 1) == DaysBeforeMonth(y, m) + DaysInMonth(y, m);
    assert DaysBeforeMonth(y, m + 2) == DaysBeforeMonth(y, m + 1) + DaysInMonth(y, m + 1);
  }

  /** The days before each month. */
  lemma MonthStarts(y: nat, m: nat)
    requires 1 <= m <= 12
    ensures DaysBeforeMonth(y, m) ==
      [0, 31, 59, 90, 120, 151, 181, 212, 243, 273, 304, 334][m - 1] + if m > 2 && IsLeap(y) then 1 else 0
  {
    if m > 3 {
      Quarter(y, m - 3);
      MonthStarts(y, m - 3);
    } else {
      NextMonth(y, 1);
      NextMonth(y, 2);
    }
  }

  lemma DatesInOrder(a: DateTime, b: DateTime)
    requires Valid(a) && Valid(b)
    requires a.year < b.year || (a.year == b.year && (a.month < b.month || (a.month == b.month && a.day < b.day)))
    ensures Ordinal(a) < Ordinal(b)
  {
    if a.year < b.year {
      MonthsAddUp(a.year, a.month, 13);
      WholeYear(a.year);
      YearStep(a.year);
      YearsAddUp(a.year + 1, b.year);
    } else if a.month < b.month {
      MonthsAddUp(a.year, a.month, b.month);
    }
  }

  /** Reading the fields in order is the same as comparing the local clocks. */
  lemma FieldsOrderLocal(a: DateTime, b: DateTime)
    requires Valid(a) && Valid(b)
    ensures FieldsBefore(a, b) <==> Local(a) < Local(b)
  {
    if FieldsBefore(a, b) {
      FieldsBeforeIsEarlier(a, b);
    } else if FieldsBefore(b, a) {
      FieldsBeforeIsEarlier(b, a);
    }
  }

  lemma FieldsBeforeIsEarlier(a: DateTime, b: DateTime)
    requires Valid(a) && Valid(b) && FieldsBefore(a, b)
    ensures Local(a) < Local(b)
  {
    if a.year != b.year || a.month != b.month || a.day != b.day {
      DatesInOrder(a, b);
    }
  }

  /** b is the next microsecond on the same clock: the last field that is not at its end goes up by one, and the fields
      behind it start again. */
  predicate NextTick(a: DateTime, b: DateTime) {
    var start := a.(micro := 0);
    var minute := start.(second := 0);
    var hour := minute.(minute := 0);
    var day := hour.(hour := 0);
    if a.micro < 999_999 then b == a.(micro := a.micro + 1)
    else if a.second < 59 then b == start.(second := a.second + 1)
    else if a.minute < 59 then b == minute.(minute := a.minute + 1)
    else if a.hour < 23 then b == hour.(hour := a.hour + 1)
    else if a.day < DaysInMonth(a.year, a.month) then b == day.(day := a.day + 1)
    else if a.month < 12 then b == day.(day := 1, month := a.month + 1)
    else b == day.(day := 1, month := 1, year := a.year + 1)
  }

  /** Instants count microseconds: each tick of the clock is one. */
  lemma TicksAreCounted(a: DateTime, b: DateTime)
    requires Valid(a) && NextTick(a, b)
    ensures Instant(b) == Instant(a) + 1
  {
    hide IsLeap, DaysBeforeYear;
    if b.month != a.month || b.year != a.year {
      NextMonth(a.year, a.month);
    }
  }

  lemma NextMonth(y: nat, m: nat)
    requires m > 0
    ensures DaysBeforeMonth(y, m + 1) == DaysBeforeMonth(y, m) + DaysInMonth(y, m) && DaysBeforeMonth(y + 1, 1) == 0
    ensures DaysBeforeYear(y + 1) == DaysBeforeYear(y) + DaysBeforeMonth(y, 13)
  {
    YearStep(y);
    WholeYear(y);
  }

  /** Clocks further east show the same instant later. */
  lemma SameInstantAbroad(t: DateTime, hours: nat, minutes: nat)
    ensures Instant(t.(hour := t.hour + hours, minute := t.minute + minutes,
                       offset := t.offset + 60 * hours + minutes)) == Instant(t)
  {
  }

  // --- text

  // n as exactly w digits
  function Pad(n: nat, w: nat): (s: string)
    ensures |s| == w
  {
    if w == 0 then "" else Pad(n / 10, w - 1) + [DigitChar(n % 10)]
  }

  function Power10(w: nat): nat {
    if w == 0 then 1 else 10 * Power10(w - 1)
  }

  function OffsetText(offset: int): (s: string)
    ensures |s| == 6
  {
    var size := if offset < 0 then -offset else offset;
    [if offset < 0 then '-' else '+'] + Pad(size / 60, 2) + ":" + Pad(size % 60, 2)
  }

  // The fraction (six digits, or nothing when it is zero) and the offset.
  function Tail(micro: nat, offset: int): string {
    if micro == 0 then OffsetText(offset) else "." + Pad(micro, 6) + OffsetText(offset)
  }

  function Field(n: nat, w: nat, separator: char): string {
    Pad(n, w) + [separator]
  }

  /** t.isoformat() */
  function IsoFormat(t: DateTime): string {
    Field(t.year, 4, '-') + (Field(t.month, 2, '-') + (Field(t.day, 2, 'T') + (Field(t.hour, 2, ':')
    + (Field(t.minute, 2, ':') + (Pad(t.second, 2) + Tail(t.micro, t.offset))))))
  }

  lemma {:induction false} BeforeConcat(p: string, q: string, x: string, y: string)
    requires |p| == |q|
    ensures Before(p + x, q + y) <==> Before(p, q) || (p == q && Before(x, y))
  {
    if p == "" {
      assert p + x == x && q + y == y;
    } else {
      assert (p + x)[1..] == p[1..] + x && (q + y)[1..] == q[1..] + y;
      BeforeConcat(p[1..], q[1..], x, y);
      assert p == [p[0]] + p[1..] && q == [q[0]] + q[1..];
    }
  }

  lemma {:induction false} PadOrder(m: nat, n: nat, w: nat)
    requires m < Power10(w) && n < Power10(w)
    ensures Before(Pad(m, w), Pad(n, w)) <==> m < n
    ensures Pad(m, w) == Pad(n, w) <==> m == n
  {
    if w > 0 {
      PadOrder(m / 10, n / 10, w - 1);
      BeforeConcat(Pad(m / 10, w - 1), Pad(n / 10, w - 1), [DigitChar(m % 10)], [DigitChar(n % 10)]);
      assert Pad(m, w)[..w - 1] == Pad(m / 10, w - 1) && Pad(n, w)[..w - 1] == Pad(n / 10, w - 1);
      assert Pad(m, w)[w - 1] == DigitChar(m % 10) && Pad(n, w)[w - 1] == DigitChar(n % 10);
    }
  }

  lemma PadThen(m: nat, n: nat, w: nat, x: string, y: string)
    requires m < Power10(w) && n < Power10(w)
    ensures Before(Pad(m, w) + x, Pad(n, w) + y) <==> m < n || (m == n && Before(x, y))
  {
    PadOrder(m, n, w);
    BeforeConcat(Pad(m, w), Pad(n, w), x, y);
  }

  lemma FieldThen(m: nat, n: nat, w: nat, separator: char, x: string, y: string)
    requires m < Power10(w) && n < Power10(w)
    ensures Before(Field(m, w, separator) + x, Field(n, w, separator) + y) <==> m < n || (m == n && Before(x, y))
  {
    PadThen(m, n, w, [separator] + x, [separator] + y);
    assert Field(m, w, separator) + x == Pad(m, w) + ([separator] + x);
    assert Field(n, w, separator) + y == Pad(n, w) + ([separator] + y);
    assert ([separator] + x)[1..] == x && ([separator] + y)[1..] == y;
  }

  // An absent fraction sorts before any fraction, whatever the offset's sign: '+' and '-' precede '.'.
  lemma NoFractionFirst(micro: nat, offset: int, other: int)
    requires 0 < micro
    ensures Before(Tail(0, offset), Tail(micro, other)) && !Before(Tail(micro, other), Tail(0, offset))
  {
  }

  lemma TailOrder(m: nat, n: nat, offset: int)
    requires m < 1_000_000 && n < 1_000_000
    ensures Before(Tail(m, offset), Tail(n, offset)) <==> m < n
  {
    hide Pad, OffsetText, Before;
    BeforeIsTotal(OffsetText(offset), OffsetText(offset));
    if m > 0 && n > 0 {
      assert Power10(6) == 1_000_000;
      PadThen(m, n, 6, OffsetText(offset), OffsetText(offset));
      BeforeConcat(".", ".", Pad(m, 6) + OffsetText(offset), Pad(n, 6) + OffsetText(offset));
      assert Tail(m, offset) == "." + (Pad(m, 6) + OffsetText(offset));
      assert Tail(n, offset) == "." + (Pad(n, 6) + OffsetText(offset));
      BeforeIsTotal(".", ".");
    } else if m > 0 {
      NoFractionFirst(m, offset, offset);
    } else if n > 0 {
      NoFractionFirst(n, offset, offset);
    }
  }

  // The texts from the hour on.
  lemma ClockOrder(a: DateTime, b: DateTime)
    requires Valid(a) && Valid(b) && a.offset == b.offset
    ensures
      var x, y := Field(a.minute, 2, ':') + (Pad(a.second, 2) + Tail(a.micro, a.offset)),
                  Field(b.minute, 2, ':') + (Pad(b.second, 2) + Tail(b.micro, b.offset));
      (Before(x, y) <==>
        (a.minute < b.minute
         || (a.minute == b.minute && (a.second < b.second || (a.second == b.second && a.micro < b.micro)))))
  {
    assert Power10(2) == 100;
    TailOrder(a.micro, b.micro, a.offset);
    PadThen(a.second, b.second, 2, Tail(a.micro, a.offset), Tail(b.micro, b.offset));
    FieldThen(a.minute, b.minute, 2, ':', Pad(a.second, 2) + Tail(a.micro, a.offset),
              Pad(b.second, 2) + Tail(b.micro, b.offset));
  }

  lemma TextOrdersFields(a: DateTime, b: DateTime)
    requires Valid(a) && Valid(b) && a.offset == b.offset
    ensures Before(IsoFormat(a), IsoFormat(b)) <==> FieldsBefore(a, b)
  {
    hide Before, Field, Pad, Tail, OffsetText;
    assert Power10(2) == 100 && Power10(4) == 10000;
    var x0 := Field(a.minute, 2, ':') + (Pad(a.second, 2) + Tail(a.micro, a.offset));
    var y0 := Field(b.minute, 2, ':') + (Pad(b.second, 2) + Tail(b.micro, b.offset));
    ClockOrder(a, b);
    FieldThen(a.hour, b.hour, 2, ':', x0, y0);
    var x1, y1 := Field(a.hour, 2, ':') + x0, Field(b.hour, 2, ':') + y0;
    FieldThen(a.day, b.day, 2, 'T', x1, y1);
    var x2, y2 := Field(a.day, 2, 'T') + x1, Field(b.day, 2, 'T') + y1;
    FieldThen(a.month, b.month, 2, '-', x2, y2);
    var x3, y3 := Field(a.month, 2, '-') + x2, Field(b.month, 2, '-') + y2;
    FieldThen(a.year, b.year, 4, '-', x3, y3);
  }

  /** With one offset, comparing the texts is comparing the instants, although their widths differ. */
  lemma TextOrderIsTimeOrder(a: DateTime, b: DateTime)
    requires Valid(a) && Valid(b) && a.offset == b.offset
    ensures Before(IsoFormat(a), IsoFormat(b)) <==> Instant(a) < Instant(b)
    ensures IsoFormat(a) == IsoFormat(b) <==> Instant(a) == Instant(b)
  {
    TextOrdersFields(a, b);
    FieldsOrderLocal(a, b);
    TextOrdersFields(b, a);
    FieldsOrderLocal(b, a);
    BeforeIsTotal(IsoFormat(a), IsoFormat(b));
  }

  // --- reading the text

  predicate IsNumber(s: string, n: nat) {
    ValueOf(s) == n && forall i :: 0 <= i < |s| ==> '0' <= s[i] <= '9'
  }

  lemma {:induction false} PadReads(n: nat, w: nat)
    requires n < Power10(w)
    ensures IsNumber(Pad(n, w), n)
  {
    if w > 0 {
      PadReads(n / 10, w - 1);
      assert Pad(n, w)[..w - 1] == Pad(n / 10, w - 1);
    }
  }

  // hh:mm with its sign
  predicate OffsetReads(s: string, offset: int) {
    |s| == 6 && s[3] == ':' && (
    var h, m := ValueOf(s[1..3]), ValueOf(s[4..6]);
    && IsNumber(s[1..3], h) && IsNumber(s[4..6], m) && m < 60
    && ((s[0] == '+' && offset == 60 * h + m) || (s[0] == '-' && offset == -(60 * h + m) < 0)))
  }

  predicate TailReads(s: string, micro: nat, offset: int) {
    if micro == 0 then OffsetReads(s, offset)
    else |s| == 13 && s[0] == '.' && IsNumber(s[1..7], micro) && OffsetReads(s[7..], offset)
  }

  lemma OffsetTextReads(offset: int)
    requires -1440 < offset < 1440
    ensures OffsetReads(OffsetText(offset), offset)
  {
    hide Pad, IsNumber;
    var size := if offset < 0 then -offset else offset;
    var s, h, m := OffsetText(offset), size / 60, size % 60;
    assert Power10(2) == 100;
    PadReads(h, 2);
    PadReads(m, 2);
    assert s[1..3] == Pad(h, 2) && s[4..6] == Pad(m, 2);
  }

  lemma TailTextReads(micro: nat, offset: int)
    requires -1440 < offset < 1440 && micro < 1_000_000
    ensures TailReads(Tail(micro, offset), micro, offset)
  {
    hide Pad, IsNumber, OffsetText, OffsetReads;
    OffsetTextReads(offset);
    if micro > 0 {
      assert Power10(6) == 1_000_000;
      PadReads(micro, 6);
      assert Tail(micro, offset)[1..7] == Pad(micro, 6) && Tail(micro, offset)[7..] == OffsetText(offset);
    }
  }

  // YYYY-MM-DDTHH:MM:SS
  predicate ClockReads(s: string, t: DateTime)
    requires |s| >= 19
  {
    && IsNumber(s[..4], t.year) && s[4] == '-' && IsNumber(s[5..7], t.month) && s[7] == '-'
    && IsNumber(s[8..10], t.day) && s[10] == 'T' && IsNumber(s[11..13], t.hour) && s[13] == ':'
    && IsNumber(s[14..16], t.minute) && s[16] == ':' && IsNumber(s[17..19], t.second)
  }

  lemma FieldsJoined(a: string, b: string, c: string, d: string, e: string, f: string, tail: string)
    requires |a| == 5 && |b| == |c| == |d| == |e| == 3 && |f| == 2
    ensures
      var s := a + (b + (c + (d + (e + (f + tail)))));
      && |s| == 19 + |tail| && s[..4] == a[..4] && s[4] == a[4] && s[5..7] == b[..2] && s[7] == b[2]
      && s[8..10] == c[..2] && s[10] == c[2] && s[11..13] == d[..2] && s[13] == d[2]
      && s[14..16] == e[..2] && s[16] == e[2] && s[17..19] == f && s[19..] == tail
  {
  }

  /** The text of a time is YYYY-MM-DDTHH:MM:SS, its fraction of six digits if it has one, and its offset. */
  lemma IsoReads(t: DateTime)
    requires Valid(t)
    ensures |IsoFormat(t)| >= 19 && ClockReads(IsoFormat(t), t) && TailReads(IsoFormat(t)[19..], t.micro, t.offset)
  {
    hide Pad, IsNumber, Tail, TailReads;
    assert Power10(2) == 100 && Power10(4) == 10000;
    PadReads(t.year, 4);
    PadReads(t.month, 2);
    PadReads(t.day, 2);
    PadReads(t.hour, 2);
    PadReads(t.minute, 2);
    PadReads(t.second, 2);
    TailTextReads(t.micro, t.offset);
    FieldReads(t.year, 4, '-');
    FieldReads(t.month, 2, '-');
    FieldReads(t.day, 2, 'T');
    FieldReads(t.hour, 2, ':');
    FieldReads(t.minute, 2, ':');
    FieldsJoined(Field(t.year, 4, '-'), Field(t.month, 2, '-'), Field(t.day, 2, 'T'), Field(t.hour, 2, ':'),
                 Field(t.minute, 2, ':'), Pad(t.second, 2), Tail(t.micro, t.offset));
  }

  lemma FieldReads(n: nat, w: nat, separator: char)
    ensures |Field(n, w, separator)| == w + 1 && Field(n, w, separator)[..w] == Pad(n, w)
    ensures Field(n, w, separator)[w] == separator
  {
  }

  // --- different offsets

  /** Text order is time order for all datetimes with these two offsets. */
  ghost predicate OffsetsAgree(o: int, p: int) {
    forall a, b :: Valid(a) && Valid(b) && a.offset == o && b.offset == p
      ==> (Before(IsoFormat(a), IsoFormat(b)) <==> Instant(a) < Instant(b))
  }

  const MIDNIGHT := DateTime(2024, 1, 1, 0, 0, 0, 0, 0)

  lemma MidnightTexts(micro: nat, offset: int, micro': nat, offset': int)
    ensures
      var a, b := MIDNIGHT.(micro := micro, offset := offset), MIDNIGHT.(micro := micro', offset := offset');
      Before(IsoFormat(a), IsoFormat(b)) <==> Before(Tail(micro, offset), Tail(micro', offset'))
  {
    hide Before, Field, Pad, Tail, OffsetText;
    var x, y := Tail(micro, offset), Tail(micro', offset');
    assert Power10(2) == 100 && Power10(4) == 10000;
    PadThen(0, 0, 2, x, y);
    var x0, y0 := Pad(0, 2) + x, Pad(0, 2) + y;
    FieldThen(0, 0, 2, ':', x0, y0);
    var x1, y1 := Field(0, 2, ':') + x0, Field(0, 2, ':') + y0;
    FieldThen(0, 0, 2, ':', x1, y1);
    var x2, y2 := Field(0, 2, ':') + x1, Field(0, 2, ':') + y1;
    FieldThen(1, 1, 2, 'T', x2, y2);
    var x3, y3 := Field(1, 2, 'T') + x2, Field(1, 2, 'T') + y2;
    FieldThen(1, 1, 2, '-', x3, y3);
    var x4, y4 := Field(1, 2, '-') + x3, Field(1, 2, '-') + y3;
    FieldThen(2024, 2024, 4, '-', x4, y4);
  }

  // One microsecond apart on the wall clock, but in the other order in time.
  lemma OffsetsDisagree(o: int, p: int) returns (a: DateTime, b: DateTime)
    requires -1440 < o < 1440 && -1440 < p < 1440 && o != p
    ensures Valid(a) && Valid(b) && a.offset == o && b.offset == p && a.year == b.year == 2024
    ensures !(Before(IsoFormat(a), IsoFormat(b)) <==> Instant(a) < Instant(b))
  {
    hide IsoFormat, Before, Tail;
    var m, n := if o < p then 0 else 1, if o < p then 1 else 0;
    a, b := MIDNIGHT.(micro := m, offset := o), MIDNIGHT.(micro := n, offset := p);
    MidnightTexts(m, o, n, p);
    NoFractionFirst(1, if o < p then o else p, if o < p then p else o);
    assert Ordinal(a) == Ordinal(b);
  }

  /** The text comparison is right for a pair of offsets exactly when they are the same. */
  lemma OffsetsAgreeIffEqual(o: int, p: int)
    requires -1440 < o < 1440 && -1440 < p < 1440
    ensures OffsetsAgree(o, p) <==> o == p
  {
    hide IsoFormat, Before, Instant;
    if o == p {
      forall a, b | Valid(a) && Valid(b) && a.offset == o && b.offset == p
        ensures Before(IsoFormat(a), IsoFormat(b)) <==> Instant(a) < Instant(b)
      {
        TextOrderIsTimeOrder(a, b);
      }
    } else {
      var a, b := OffsetsDisagree(o, p);
    }
  }

  /** With at least a whole calendar year in between, offsets do not matter. */
  lemma YearsApart(a: DateTime, b: DateTime)
    requires Valid(a) && Valid(b) && a.year + 1 < b.year
    ensures Before(IsoFormat(a), IsoFormat(b)) && !Before(IsoFormat(b), IsoFormat(a))
    ensures Instant(a) < Instant(b)
  {
    hide Before, Field, DaysBeforeMonth, DaysInMonth;
    YearTextFirst(a, b);
    YearTextFirst(b, a);
    var between := DateTime(a.year + 1, 1, 1, 0, 0, 0, 0, 0);
    assert Valid(between) by {
      FirstDay(a.year + 1);
    }
    DatesInOrder(a, between);
    YearsAddUp(a.year + 2, b.year);
    YearStep(a.year + 1);
    FirstDay(a.year + 1);
  }

  lemma FirstDay(y: nat)
    ensures DaysBeforeMonth(y, 1) == 0 && DaysInMonth(y, 1) == 31
  {
  }

  lemma YearTextFirst(a: DateTime, b: DateTime)
    requires Valid(a) && Valid(b) && a.year != b.year
    ensures Before(IsoFormat(a), IsoFormat(b)) <==> a.year < b.year
  {
    hide Before, Field, Pad, Tail;
    assert Power10(4) == 10000;
    FieldThen(a.year, b.year, 4, '-',
      Field(a.month, 2, '-') + (Field(a.day, 2, 'T') + (Field(a.hour, 2, ':')
        + (Field(a.minute, 2, ':') + (Pad(a.second, 2) + Tail(a.micro, a.offset))))),
      Field(b.month, 2, '-') + (Field(b.day, 2, 'T') + (Field(b.hour, 2, ':')
        + (Field(b.minute, 2, ':') + (Pad(b.second, 2) + Tail(b.micro, b.offset))))));
  }
}
