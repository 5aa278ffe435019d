/**
 Deadlines are stored and compared as text: `isoformat()` of a UTC datetime, compared by SQLite byte by byte.
 This module defines that text, the instant it denotes, and proves that the two orders are the same order,
 although the fraction of a second is printed only when it is not zero.
 */
module Timestamps {
  import opened Wrappers

  // ---------------------------------------------------------------- calendar

  predicate IsLeap(year: nat) {
    year % 4 == 0 && (year % 100 != 0 || year % 400 == 0)
  }

  function DaysInMonth(year: nat, month: nat): nat {
    if month == 2 then if IsLeap(year) then 29 else 28
    else if month in {4, 6, 9, 11} then 30
    else 31
  }

  /** Days of `year` that precede the first of `month`; `month` 13 is the whole year. */
  function DaysBeforeMonth(year: nat, month: nat): nat {
    if month <= 1 then 0 else DaysBeforeMonth(year, month - 1) + DaysInMonth(year, month - 1)
  }

  function DaysBeforeYear(year: nat): nat {
    if year <= 1 then 0 else DaysBeforeYear(year - 1) + DaysBeforeMonth(year - 1, 13)
  }

  /** An aware datetime whose zone is UTC, the only kind the store is given. */
  datatype DateTime = DateTime(year: nat, month: nat, day: nat, hour: nat, minute: nat, second: nat, micro: nat) {
    predicate Valid() {
      && 1 <= year <= 9999 && 1 <= month <= 12 && 1 <= day <= DaysInMonth(year, month)
      && hour < 24 && minute < 60 && second < 60 && micro < 1_000_000
    }

    function Day(): nat {
      DaysBeforeYear(year) + DaysBeforeMonth(year, month) + day
    }

    /** Microseconds since the day before 0001-01-01: what the datetime means. */
    function Instant(): nat {
      (((Day() * 24 + hour) * 60 + minute) * 60 + second) * 1_000_000 + micro
    }

    /** The printed whole-second fields, most significant first. */
    function Fields(): seq<Field> {
      [Field(year, 4, "-"), Field(month, 2, "-"), Field(day, 2, "T"),
       Field(hour, 2, ":"), Field(minute, 2, ":"), Field(second, 2, "")]
    }
  }

  type UtcTime = d: DateTime | d.Valid() witness DateTime(1970, 1, 1, 0, 0, 0, 0)

  lemma {:induction false} MonthsAdd(year: nat, m: nat, n: nat)
    requires 1 <= m < n <= 13
    ensures DaysBeforeMonth(year, m) + DaysInMonth(year, m) <= DaysBeforeMonth(year, n)
    decreases n
  {
    if m + 1 < n {
      MonthsAdd(year, m, n - 1);
    }
  }

  lemma {:induction false} YearsAdd(y: nat, z: nat)
    requires 1 <= y < z
    ensures DaysBeforeYear(y) + DaysBeforeMonth(y, 13) <= DaysBeforeYear(z)
    decreases z
  {
    if y + 1 < z {
      YearsAdd(y, z - 1);
    }
  }

  lemma DayOrder(a: UtcTime, b: UtcTime)
    requires a.year < b.year
      || (a.year == b.year && (a.month < b.month || (a.month == b.month && a.day < b.day)))
    ensures a.Day() < b.Day()
  {
    if a.year < b.year {
      YearsAdd(a.year, b.year);
      MonthsAdd(a.year, a.month, 13);
    } else if a.month < b.month {
      MonthsAdd(a.year, a.month, b.month);
    }
  }

  /** The Gregorian calendar: the months of any year. */
  lemma MonthsOfTheYear(year: nat, month: nat)
    requires 1 <= month <= 12
    ensures DaysInMonth(year, month)
      == [31, if year % 4 == 0 && (year % 100 != 0 || year % 400 == 0) then 29 else 28,
          31, 30, 31, 30, 31, 31, 30, 31, 30, 31][month - 1]
  {
  }

  /** A year has 365 days, or 366. */
  lemma DaysOfTheYear(year: nat)
    requires year >= 1
    ensures DaysBeforeYear(year + 1) == DaysBeforeYear(year) + if DaysInMonth(year, 2) == 29 then 366 else 365
  {
    FirstMonths(year, 12);
  }

  /** The days before the first of a month of an ordinary year, and of a leap year from March on one more. */
  lemma {:induction false} FirstMonths(year: nat, month: nat)
    requires 1 <= month <= 12
    ensures DaysBeforeMonth(year, month)
      == [0, 31, 59, 90, 120, 151, 181, 212, 243, 273, 304, 334][month - 1]
      + if month > 2 && DaysInMonth(year, 2) == 29 then 1 else 0
  {
    if month > 1 {
      FirstMonths(year, month - 1);
    }
  }

  /** An instant is so many microseconds: of its day's time, and of the days before, 86 400 seconds each. */
  lemma MicrosecondsOfTheDay(a: UtcTime, b: UtcTime)
    ensures a.Day() + 1 == b.Day() ==>
      b.(hour := 0, minute := 0, second := 0, micro := 0).Instant()
      == a.(hour := 0, minute := 0, second := 0, micro := 0).Instant() + 86_400_000_000
    ensures a.Instant() == a.(hour := 0, minute := 0, second := 0, micro := 0).Instant()
      + 3_600_000_000 * a.hour + 60_000_000 * a.minute + 1_000_000 * a.second + a.micro
  {
  }

  // ------------------------------------------------------------ text and order

  /** SQLite's BINARY collation on text: byte by byte, a proper prefix first. */
  predicate TextLess(a: string, b: string) {
    if b == "" then false
    else if a == "" then true
    else a[0] < b[0] || (a[0] == b[0] && TextLess(a[1..], b[1..]))
  }

  predicate TextAtMost(a: string, b: string) {
    a == b || TextLess(a, b)
  }

  lemma {:induction false} TextLessConcat(a: string, b: string, x: string, y: string)
    requires |a| == |b|
    ensures TextLess(a + x, b + y) <==> TextLess(a, b) || (a == b && TextLess(x, y))
  {
    if a == "" {
      assert a + x == x && b + y == y;
    } else {
      assert (a + x)[1..] == a[1..] + x && (b + y)[1..] == b[1..] + y;
      assert a == [a[0]] + a[1..] && b == [b[0]] + b[1..];
      TextLessConcat(a[1..], b[1..], x, y);
    }
  }

  function Power10(w: nat): (p: nat)
    ensures p > 0
  {
    if w == 0 then 1 else 10 * Power10(w - 1)
  }

  /** `n` in decimal with exactly `w` digits. */
  function Pad(n: nat, w: nat): (s: string)
    ensures |s| == w
  {
    if w == 0 then "" else Pad(n / 10, w - 1) + [('0' as int + n % 10) as char]
  }

  lemma {:induction false} PadOrder(m: nat, n: nat, w: nat)
    requires m < Power10(w) && n < Power10(w)
    ensures TextLess(Pad(m, w), Pad(n, w)) <==> m < n
    ensures Pad(m, w) == Pad(n, w) <==> m == n
  {
    if w > 0 {
      PadOrder(m / 10, n / 10, w - 1);
      var c, d := [('0' as int + m % 10) as char], [('0' as int + n % 10) as char];
      var p, q := Pad(m / 10, w - 1), Pad(n / 10, w - 1);
      TextLessConcat(p, q, c, d);
      assert (p + c)[..w - 1] == p && (q + d)[..w - 1] == q;
      assert (p + c)[w - 1] == c[0] && (q + d)[w - 1] == d[0];
      assert c[1..] == "" && d[1..] == "";
      assert TextLess(c, d) <==> m % 10 < n % 10;
    }
  }

  datatype Field = Field(value: nat, width: nat, separator: string)

  function FieldText(fs: seq<Field>, tail: string): string {
    if fs == [] then tail
    else Pad(fs[0].value, fs[0].width) + fs[0].separator + FieldText(fs[1..], tail)
  }

  ghost predicate SameShape(fs: seq<Field>, gs: seq<Field>) {
    && |fs| == |gs|
    && forall i :: 0 <= i < |fs| ==>
         && fs[i].width == gs[i].width && fs[i].separator == gs[i].separator
         && fs[i].value < Power10(fs[i].width) && gs[i].value < Power10(gs[i].width)
  }

  predicate FieldsLess(fs: seq<Field>, gs: seq<Field>) {
    if fs == [] || gs == [] then false
    else fs[0].value < gs[0].value || (fs[0].value == gs[0].value && FieldsLess(fs[1..], gs[1..]))
  }

  lemma {:induction false} FieldTextOrder(fs: seq<Field>, gs: seq<Field>, x: string, y: string)
    requires SameShape(fs, gs)
    ensures TextLess(FieldText(fs, x), FieldText(gs, y)) <==> FieldsLess(fs, gs) || (fs == gs && TextLess(x, y))
  {
    hide TextLess, Pad, Power10;
    if fs != [] {
      var f, g := fs[0], gs[0];
      assert fs == [f] + fs[1..] && gs == [g] + gs[1..];
      var p, q := Pad(f.value, f.width), Pad(g.value, g.width);
      PadOrder(f.value, g.value, f.width);
      FieldTextOrder(fs[1..], gs[1..], x, y);
      var r, s := FieldText(fs[1..], x), FieldText(gs[1..], y);
      assert p + f.separator + r == p + (f.separator + r) && q + g.separator + s == q + (g.separator + s);
      TextLessConcat(p, q, f.separator + r, g.separator + s);
      TextLessConcat(f.separator, g.separator, r, s);
      TextIrreflexive(f.separator);
    }
  }

  lemma {:induction false} TextIrreflexive(a: string)
    ensures !TextLess(a, a)
  {
    if a != "" {
      TextIrreflexive(a[1..]);
    }
  }

  const UTC_OFFSET := "+00:00"

  /** The fraction is left out when it is zero, then the offset follows at once. */
  function Tail(micro: nat): string {
    if micro == 0 then UTC_OFFSET else "." + Pad(micro, 6) + UTC_OFFSET
  }

  function Iso(d: UtcTime): string {
    FieldText(d.Fields(), Tail(d.micro))
  }

  /** The text, field by field. */
  lemma IsoText(d: UtcTime)
    ensures Iso(d) == Pad(d.year, 4) + "-" + Pad(d.month, 2) + "-" + Pad(d.day, 2) + "T"
      + Pad(d.hour, 2) + ":" + Pad(d.minute, 2) + ":" + Pad(d.second, 2)
      + if d.micro == 0 then "+00:00" else "." + Pad(d.micro, 6) + "+00:00"
  {
    hide Pad;
    SixFields(d, Tail(d.micro));
  }

  lemma OneField(f: Field, rest: seq<Field>, before: string, tail: string)
    ensures before + FieldText([f] + rest, tail) == before + Pad(f.value, f.width) + f.separator + FieldText(rest, tail)
  {
    hide Pad;
    assert ([f] + rest)[1..] == rest;
    assert FieldText([f] + rest, tail) == Pad(f.value, f.width) + f.separator + FieldText(rest, tail);
  }

  lemma SixFields(d: DateTime, tail: string)
    ensures FieldText(d.Fields(), tail) == Pad(d.year, 4) + "-" + Pad(d.month, 2) + "-" + Pad(d.day, 2) + "T"
      + Pad(d.hour, 2) + ":" + Pad(d.minute, 2) + ":" + Pad(d.second, 2) + tail
  {
    hide Pad, FieldText;
    var f := d.Fields();
    var date := Pad(d.year, 4) + "-" + Pad(d.month, 2) + "-";
    var stamp := date + Pad(d.day, 2) + "T";
    OneField(f[0], f[1..], "", tail);
    OneField(f[1], f[2..], Pad(d.year, 4) + "-", tail);
    OneField(f[2], f[3..], date, tail);
    OneField(f[3], f[4..], stamp, tail);
    OneField(f[4], f[5..], stamp + Pad(d.hour, 2) + ":", tail);
    OneField(f[5], [], stamp + Pad(d.hour, 2) + ":" + Pad(d.minute, 2) + ":", tail);
    assert f == [f[0]] + f[1..] && f[1..] == [f[1]] + f[2..] && f[2..] == [f[2]] + f[3..];
    assert f[3..] == [f[3]] + f[4..] && f[4..] == [f[4]] + f[5..] && f[5..] == [f[5]] + [];
    NoFields(tail);
    assert "" + FieldText(f, tail) == FieldText(f, tail) && "" + Pad(d.year, 4) == Pad(d.year, 4);
    var all := stamp + Pad(d.hour, 2) + ":" + Pad(d.minute, 2) + ":" + Pad(d.second, 2);
    assert all + "" == all;
  }

  lemma NoFields(tail: string)
    ensures FieldText([], tail) == tail
  {
  }

  /** Decimal digits, the last of them the remainder by ten. */
  lemma PadDigits(n: nat, w: nat)
    requires w > 0
    ensures |Pad(n, w)| == w && Pad(n, w) == Pad(n / 10, w - 1) + ["0123456789"[n % 10]]
  {
  }

  lemma TailOrder(m: nat, n: nat)
    requires m < 1_000_000 && n < 1_000_000
    ensures TextLess(Tail(m), Tail(n)) <==> m < n
  {
    if m == 0 || n == 0 {
      // '+' sorts before '.', so a time with no fraction sorts before one with a fraction.
      assert Tail(m)[0] == if m == 0 then '+' else '.';
      assert Tail(n)[0] == if n == 0 then '+' else '.';
      TextIrreflexive(UTC_OFFSET);
    } else {
      SixDigits();
      PadOrder(m, n, 6);
      TextIrreflexive(UTC_OFFSET);
      TextLessConcat(Pad(m, 6), Pad(n, 6), UTC_OFFSET, UTC_OFFSET);
      assert Tail(m)[1..] == Pad(m, 6) + UTC_OFFSET && Tail(n)[1..] == Pad(n, 6) + UTC_OFFSET;
    }
  }

  lemma SixDigits()
    ensures Power10(2) == 100 && Power10(4) == 10_000 && Power10(6) == 1_000_000
  {
    assert Power10(1) == 10 * Power10(0);
    assert Power10(3) == 10 * Power10(2);
    assert Power10(5) == 10 * Power10(4);
  }

  /** The fields in lexicographic order are the instants in numeric order. */
  lemma FieldOrderIsInstantOrder(a: UtcTime, b: UtcTime)
    requires FieldsLess(a.Fields(), b.Fields()) || (a.Fields() == b.Fields() && a.micro < b.micro)
    ensures a.Instant() < b.Instant()
  {
    FieldsLessUnfolded(a, b);
    if (a.year, a.month, a.day) != (b.year, b.month, b.day) {
      DayOrder(a, b);
    }
    if a.Fields() == b.Fields() {
      FieldsInjective(a, b);
    }
  }

  lemma FieldsInjective(a: UtcTime, b: UtcTime)
    ensures a.Fields() == b.Fields() <==> a.(micro := 0) == b.(micro := 0)
  {
    if a.Fields() == b.Fields() {
      var fs := a.Fields();
      assert fs[0] == b.Fields()[0] && fs[1] == b.Fields()[1] && fs[2] == b.Fields()[2];
      assert fs[3] == b.Fields()[3] && fs[4] == b.Fields()[4] && fs[5] == b.Fields()[5];
    }
  }

  lemma FieldsLessUnfolded(a: UtcTime, b: UtcTime)
    ensures FieldsLess(a.Fields(), b.Fields()) <==>
      || a.year < b.year
      || (a.year == b.year && (a.month < b.month
      || (a.month == b.month && (a.day < b.day
      || (a.day == b.day && (a.hour < b.hour
      || (a.hour == b.hour && (a.minute < b.minute
      || (a.minute == b.minute && a.second < b.second)))))))))
  {
    var f, g := a.Fields(), b.Fields();
    assert f[1..][1..] == f[2..] && g[1..][1..] == g[2..];
    assert f[2..][1..] == f[3..] && g[2..][1..] == g[3..];
    assert f[3..][1..] == f[4..] && g[3..][1..] == g[4..];
    assert f[4..][1..] == f[5..] && g[4..][1..] == g[5..];
    assert f[5..][1..] == [] && g[5..][1..] == [];
    assert FieldsLess(f[5..], g[5..]) <==> a.second < b.second;
    assert FieldsLess(f[4..], g[4..]) <==> a.minute < b.minute || (a.minute == b.minute && FieldsLess(f[5..], g[5..]));
    assert FieldsLess(f[3..], g[3..]) <==> a.hour < b.hour || (a.hour == b.hour && FieldsLess(f[4..], g[4..]));
    assert FieldsLess(f[2..], g[2..]) <==> a.day < b.day || (a.day == b.day && FieldsLess(f[3..], g[3..]));
    assert FieldsLess(f[1..], g[1..]) <==> a.month < b.month || (a.month == b.month && FieldsLess(f[2..], g[2..]));
  }

  /** Main result: comparing the stored text is comparing the instants. */
  lemma TextOrderIsTimeOrder(a: UtcTime, b: UtcTime)
    ensures TextLess(Iso(a), Iso(b)) <==> a.Instant() < b.Instant()
    ensures Iso(a) == Iso(b) <==> a == b
    ensures a.Instant() == b.Instant() <==> a == b
    ensures TextAtMost(Iso(a), Iso(b)) <==> a.Instant() <= b.Instant()
  {
    IsoOrderIsFieldOrder(a, b);
    IsoOrderIsFieldOrder(b, a);
    TextIrreflexive(Iso(a));
    FieldsLessUnfolded(a, b);
    FieldsLessUnfolded(b, a);
    FieldsInjective(a, b);
    if a != b {
      if TextLess(Iso(a), Iso(b)) {
        FieldOrderIsInstantOrder(a, b);
      } else {
        FieldOrderIsInstantOrder(b, a);
      }
    }
  }

  lemma IsoOrderIsFieldOrder(a: UtcTime, b: UtcTime)
    ensures TextLess(Iso(a), Iso(b)) <==>
      FieldsLess(a.Fields(), b.Fields()) || (a.Fields() == b.Fields() && a.micro < b.micro)
  {
    SixDigits();
    assert a.day <= 31 && b.day <= 31;
    assert SameShape(a.Fields(), b.Fields());
    FieldTextOrder(a.Fields(), b.Fields(), Tail(a.micro), Tail(b.micro));
    TailOrder(a.micro, b.micro);
  }

  // ------------------------------------------------------------------ parsing

  /** The value of `w` leading digits of `s`. */
  function DigitsOf(s: string, w: nat): Option<nat>
    requires w <= |s|
    decreases w
  {
    if w == 0 then Some(0)
    else
      var high := DigitsOf(s, w - 1);
      if high.Some? && '0' <= s[w - 1] <= '9' then Some(high.value * 10 + (s[w - 1] as int - '0' as int)) else None
  }

  lemma {:induction false} DigitsUndoPad(n: nat, w: nat, rest: string)
    requires n < Power10(w)
    ensures DigitsOf(Pad(n, w) + rest, w) == Some(n)
  {
    if w > 0 {
      var last := [('0' as int + n % 10) as char];
      assert Pad(n, w) + rest == Pad(n / 10, w - 1) + (last + rest);
      DigitsUndoPad(n / 10, w - 1, last + rest);
    }
  }

  /** Reads `shape` off the front of `s`: the field values, and what is left. */
  function ReadFields(shape: seq<Field>, s: string): Option<(seq<nat>, string)> {
    if shape == [] then Some(([], s))
    else
      var w, sep := shape[0].width, shape[0].separator;
      if |s| < w + |sep| || s[w..w + |sep|] != sep then None
      else
        var n := DigitsOf(s, w);
        var more := ReadFields(shape[1..], s[w + |sep|..]);
        if n.Some? && more.Some? then Some(([n.value] + more.value.0, more.value.1)) else None
  }

  function Values(fs: seq<Field>): seq<nat> {
    if fs == [] then [] else [fs[0].value] + Values(fs[1..])
  }

  lemma {:induction false} ReadUndoesFieldText(shape: seq<Field>, fs: seq<Field>, tail: string)
    requires SameShape(shape, fs)
    ensures ReadFields(shape, FieldText(fs, tail)) == Some((Values(fs), tail))
  {
    if fs != [] {
      var w, sep, rest := fs[0].width, fs[0].separator, FieldText(fs[1..], tail);
      var s := FieldText(fs, tail);
      assert s == Pad(fs[0].value, w) + (sep + rest);
      DigitsUndoPad(fs[0].value, w, sep + rest);
      assert s[w..w + |sep|] == sep && s[w + |sep|..] == rest;
      ReadUndoesFieldText(shape[1..], fs[1..], tail);
    }
  }

  /** The microseconds of a printed tail. */
  function ReadTail(s: string): Option<nat> {
    if s == UTC_OFFSET then Some(0)
    else if |s| == 13 && s[0] == '.' && s[7..] == UTC_OFFSET then DigitsOf(s[1..], 6)
    else None
  }

  lemma ReadUndoesTail(micro: nat)
    requires micro < 1_000_000
    ensures ReadTail(Tail(micro)) == Some(micro)
  {
    if micro != 0 {
      SixDigits();
      var s := Tail(micro);
      assert s[1..] == Pad(micro, 6) + UTC_OFFSET && s[7..] == UTC_OFFSET;
      DigitsUndoPad(micro, 6, UTC_OFFSET);
    }
  }

  const SHAPE := DateTime(0, 0, 0, 0, 0, 0, 0).Fields()

  /** `fromisoformat` on the text that `Iso` writes. */
  function Parse(s: string): Option<UtcTime> {
    var r := ReadFields(SHAPE, s);
    if r.None? || |r.value.0| != 6 then None
    else
      var (v, tail) := r.value;
      var micro := ReadTail(tail);
      if micro.None? then None
      else
        var d := DateTime(v[0], v[1], v[2], v[3], v[4], v[5], micro.value);
        if d.Valid() then Some(d) else None
  }

  lemma ValuesOfFields(d: DateTime)
    ensures Values(d.Fields()) == [d.year, d.month, d.day, d.hour, d.minute, d.second]
  {
    var f := d.Fields();
    assert Values(f[5..]) == [d.second];
    assert f[4..][1..] == f[5..] && Values(f[4..]) == [d.minute, d.second];
    assert f[3..][1..] == f[4..] && Values(f[3..]) == [d.hour, d.minute, d.second];
    assert f[2..][1..] == f[3..] && Values(f[2..]) == [d.day, d.hour, d.minute, d.second];
    assert f[1..][1..] == f[2..] && Values(f[1..]) == [d.month, d.day, d.hour, d.minute, d.second];
  }

  lemma ReadIso(d: UtcTime)
    ensures ReadFields(SHAPE, Iso(d)) == Some((Values(d.Fields()), Tail(d.micro)))
  {
    SixDigits();
    assert d.day <= 31;
    assert SameShape(SHAPE, d.Fields());
    ReadUndoesFieldText(SHAPE, d.Fields(), Tail(d.micro));
  }

  /** Reading a stored timestamp back gives the time that was written. */
  lemma ParseUndoesIso(d: UtcTime)
    ensures Parse(Iso(d)) == Some(d)
  {
    ReadIso(d);
    ReadUndoesTail(d.micro);
    ValuesOfFields(d);
    assert d == DateTime(d.year, d.month, d.day, d.hour, d.minute, d.second, d.micro);
  }
}
