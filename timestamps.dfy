/** The two timestamp converters of the worker: `convert_iso_to_yyyy_mm_dd`
    and `convert_iso_to_yyyy_mm_dd_hh_mm_ss`. Both delete every `Z` from
    their argument, parse the rest with `datetime.strptime` and the format
    `%Y-%m-%dT%H:%M:%S.%f`, and print the parsed value again with
    `strftime`. A parse failure (Python's `ValueError`) is `None` here.

    The upstream service sends the millisecond form `YYYY-MM-DDTHH:MM:SS.fffZ`
    of the date-time syntax of section 5.6 of RFC 3339; the parser accepts
    somewhat more (one-digit fields, a lower-case `t`, 1 to 6 fraction
    digits), exactly as `strptime` does. */
module Timestamps {
  import opened Common

  /** What `datetime.strptime` builds: microseconds kept, no time zone. */
  datatype DateTime = DateTime(year: int, month: int, day: int,
                               hour: int, minute: int, second: int, micro: int)

  // ---------------------------------------------------------------------------
  // Digits

  predicate IsDigit(c: char) { '0' <= c <= '9' }

  predicate AllDigits(s: string) { forall i :: 0 <= i < |s| ==> IsDigit(s[i]) }

  function DigitValue(c: char): int
  {
    c as int - '0' as int
  }

  function DigitChar(d: int): (c: char)
    requires 0 <= d < 10
    ensures IsDigit(c) && DigitValue(c) == d
  {
    (d + '0' as int) as char
  }

  /** The number a string of decimal digits denotes, most significant first
      (meaningful where AllDigits holds). */
  function Value(s: string): int
  {
    if s == [] then 0 else 10 * Value(s[..|s| - 1]) + DigitValue(s[|s| - 1])
  }

  /** `%f`: the digits padded on the right with zeros to six, read as a
      number of microseconds. */
  function Micro(frac: string): int
    decreases 6 - |frac|
  {
    if |frac| >= 6 then Value(frac) else Micro(frac + "0")
  }

  /** `%02d`. */
  function Pad2(n: int): (s: string)
    requires 0 <= n < 100
    ensures |s| == 2 && AllDigits(s)
  {
    [DigitChar(n / 10), DigitChar(n % 10)]
  }

  /** `%03d`, as the upstream service prints milliseconds. */
  function Pad3(n: int): (s: string)
    requires 0 <= n < 1000
    ensures |s| == 3 && AllDigits(s)
  {
    [DigitChar(n / 100)] + Pad2(n % 100)
  }

  /** `%04d`. */
  function Pad4(n: int): (s: string)
    requires 0 <= n < 10000
    ensures |s| == 4 && AllDigits(s)
  {
    Pad2(n / 100) + Pad2(n % 100)
  }

  // ---------------------------------------------------------------------------
  // Calendar: what the `datetime` constructor accepts

  predicate IsLeapYear(y: int)
  {
    y % 4 == 0 && (y % 100 != 0 || y % 400 == 0)
  }

  function DaysInMonth(y: int, m: int): int
    requires 1 <= m <= 12
  {
    if m == 2 then (if IsLeapYear(y) then 29 else 28)
    else if m == 4 || m == 6 || m == 9 || m == 11 then 30
    else 31
  }

  /** The ranges `datetime(year, month, day, hour, minute, second, micro)`
      enforces; anything outside raises `ValueError`. */
  predicate Valid(dt: DateTime)
  {
    && 1 <= dt.year <= 9999
    && 1 <= dt.month <= 12
    && 1 <= dt.day <= DaysInMonth(dt.year, dt.month)
    && 0 <= dt.hour < 24
    && 0 <= dt.minute < 60
    && 0 <= dt.second < 60
    && 0 <= dt.micro < 1000000
  }

  // ---------------------------------------------------------------------------
  // Parsing: `iso_date.replace("Z", "")` and `strptime`

  /** `s.replace("Z", "")`: every `Z` deleted, the rest kept in order. */
  function RemoveZ(s: string): (r: string)
    ensures 'Z' !in r
    ensures forall c :: c in r ==> c in s
    ensures 'Z' !in s ==> r == s
  {
    if s == [] then []
    else (if s[0] == 'Z' then [] else [s[0]]) + RemoveZ(s[1..])
  }

  /** Characters a numeric directive's regular expression can consume:
      digits, and the blank of the `%d` alternative ` [1-9]`. */
  predicate InField(c: char) { IsDigit(c) || c == ' ' }

  /** Where the field that starts at `i` ends. Every separator of the format
      (`-`, `T`, `:`, `.`) lies outside InField, so whatever alternative a
      directive's regular expression takes, it can only be followed by the
      separator if it ends exactly here. */
  function FieldEnd(t: string, i: nat): (j: nat)
    requires i <= |t|
    ensures i <= j <= |t|
    ensures forall k :: i <= k < j ==> InField(t[k])
    ensures j == |t| || !InField(t[j])
    decreases |t| - i
  {
    if i == |t| || !InField(t[i]) then i else FieldEnd(t, i + 1)
  }

  /** The field starting at `i` and the index just past the separator that
      follows it, when that separator is one of `seps`. */
  function Field(t: string, i: nat, seps: set<char>): (r: Option<(string, nat)>)
    requires i <= |t|
    ensures r.Some? ==> i < r.value.1 <= |t| && t[r.value.1 - 1] in seps
    ensures r.Some? ==> r.value.0 == t[i..r.value.1 - 1]
    ensures r.Some? ==> forall k :: i <= k < r.value.1 - 1 ==> InField(t[k])
    ensures r.Some? <==> FieldEnd(t, i) < |t| && t[FieldEnd(t, i)] in seps
  {
    var j := FieldEnd(t, i);
    if j < |t| && t[j] in seps then Some((t[i..j], j + 1)) else None
  }

  /** The language of `%m` (`1[0-2]|0[1-9]|[1-9]`), `%H` (`2[0-3]|[0-1]\d|\d`),
      `%M` (`[0-5]\d|\d`) and `%S` (`6[0-1]|[0-5]\d|\d`) alike: one or two
      digits denoting a number from `lo` to `hi`. */
  predicate SmallNumber(tok: string, lo: int, hi: int)
  {
    1 <= |tok| <= 2 && AllDigits(tok) && lo <= Value(tok) <= hi
  }

  /** The language of `%d`: `3[01]|[12]\d|0[1-9]|[1-9]| [1-9]`. */
  predicate DayToken(tok: string)
  {
    SmallNumber(tok, 1, 31) || (|tok| == 2 && tok[0] == ' ' && '1' <= tok[1] <= '9')
  }

  function DayValue(tok: string): int
    requires DayToken(tok)
  {
    if tok[0] == ' ' then DigitValue(tok[1]) else Value(tok)
  }

  /** `%Y` is `\d\d\d\d`. */
  predicate YearToken(tok: string) { |tok| == 4 && AllDigits(tok) }

  /** `%f` is `[0-9]{1,6}`, and `strptime` rejects unconverted trailing data. */
  predicate FractionToken(tok: string) { 1 <= |tok| <= 6 && AllDigits(tok) }

  /** The seven fields of the format, cut at its separators, before any of
      them is checked against its directive. */
  datatype Fields = Fields(year: string, month: string, day: string,
                           hour: string, minute: string, second: string, fraction: string)

  /** Cuts `t` at the format's separators `-`, `-`, `T`, `:`, `:`, `.`; the
      format is matched ignoring case, so the `T` may also be a `t`. The
      fraction is everything after the `.`. */
  function Split(t: string): (r: Option<Fields>)
    ensures r.Some? ==> '.' in t
  {
    var y :- Field(t, 0, {'-'});
    var mo :- Field(t, y.1, {'-'});
    var d :- Field(t, mo.1, {'T', 't'});
    var h :- Field(t, d.1, {':'});
    var mi :- Field(t, h.1, {':'});
    var s :- Field(t, mi.1, {'.'});
    Some(Fields(y.0, mo.0, d.0, h.0, mi.0, s.0, t[s.1..]))
  }

  /** Each field against its directive, then the `datetime` constructor. A
      field the format accepts but the calendar does not (February 30th,
      second 60 or 61, year 0000) is rejected by the constructor. */
  function Decode(f: Fields): (r: Option<DateTime>)
    ensures r.Some? ==> Valid(r.value)
  {
    if && YearToken(f.year) && SmallNumber(f.month, 1, 12) && DayToken(f.day)
       && SmallNumber(f.hour, 0, 23) && SmallNumber(f.minute, 0, 59)
       && SmallNumber(f.second, 0, 61) && FractionToken(f.fraction)
    then
      var dt := DateTime(Value(f.year), Value(f.month), DayValue(f.day), Value(f.hour),
                         Value(f.minute), Value(f.second),
                         Micro(f.fraction));
      if Valid(dt) then Some(dt) else None
    else None
  }

  /** `datetime.strptime(t, "%Y-%m-%dT%H:%M:%S.%f")`. */
  function Strptime(t: string): (r: Option<DateTime>)
    ensures r.Some? ==> Valid(r.value) && '.' in t
  {
    var f :- Split(t);
    Decode(f)
  }

  // ---------------------------------------------------------------------------
  // Printing: `strftime`

  /** `strftime("%Y-%m-%d")`. */
  function FormatDate(dt: DateTime): (r: string)
    requires Valid(dt)
    ensures |r| == 10 && AllDigits(r[..4]) && r[4] == '-' && r[7] == '-'
  {
    Pad4(dt.year) + "-" + Pad2(dt.month) + "-" + Pad2(dt.day)
  }

  /** The `%H:%M:%S` part. */
  function FormatTime(dt: DateTime): (r: string)
    requires Valid(dt)
    ensures |r| == 8 && r[2] == ':' && r[5] == ':'
  {
    Pad2(dt.hour) + ":" + Pad2(dt.minute) + ":" + Pad2(dt.second)
  }

  /** `strftime("%Y-%m-%d %H:%M:%S")`. */
  function FormatDateTime(dt: DateTime): string
    requires Valid(dt)
  {
    FormatDate(dt) + " " + FormatTime(dt)
  }

  /** The millisecond form the upstream service writes: `YYYY-MM-DDTHH:MM:SS.fffZ`. */
  function IsoString(dt: DateTime): string
    requires Valid(dt)
  {
    FormatDate(dt) + ("T" + (FormatTime(dt) + ("." + Pad3(dt.micro / 1000) + "Z")))
  }

  // ---------------------------------------------------------------------------
  // The two converters

  /** `convert_iso_to_yyyy_mm_dd`. */
  function ToDate(iso: string): (r: Option<string>)
    ensures r.Some? ==> |r.value| == 10 && r.value[4] == '-' && r.value[7] == '-'
  {
    var dt :- Strptime(RemoveZ(iso));
    Some(FormatDate(dt))
  }

  /** `convert_iso_to_yyyy_mm_dd_hh_mm_ss`. */
  function ToDateTime(iso: string): (r: Option<string>)
    ensures r.Some? ==> |r.value| == 19 && r.value[10] == ' ' && r.value[13] == ':'
  {
    var dt :- Strptime(RemoveZ(iso));
    Some(FormatDateTime(dt))
  }

  // ---------------------------------------------------------------------------
  // Properties

  /** Appending two digits multiplies by a hundred. */
  lemma ValueAppend2(p: string, q: string)
    requires |q| == 2
    ensures Value(p + q) == 100 * Value(p) + Value(q)
  {
    var pq, p0 := p + q, p + [q[0]];
    assert pq[..|pq| - 1] == p0 && pq[|pq| - 1] == q[1];
    assert Value(pq) == 10 * Value(p0) + DigitValue(q[1]);
    assert p0[..|p0| - 1] == p && p0[|p0| - 1] == q[0];
    assert Value(p0) == 10 * Value(p) + DigitValue(q[0]);
    assert q[..1] == [q[0]] && [q[0]][..0] == [];
    assert Value([q[0]]) == DigitValue(q[0]);
    assert Value(q) == 10 * Value([q[0]]) + DigitValue(q[1]);
  }

  lemma Pad2Value(n: int)
    requires 0 <= n < 100
    ensures Value(Pad2(n)) == n
  {
    var hi, lo := DigitChar(n / 10), DigitChar(n % 10);
    assert Pad2(n)[..1] == [hi] && [hi][..0] == [];
    assert Value([hi]) == n / 10;
    assert Value(Pad2(n)) == 10 * Value([hi]) + DigitValue(lo);
  }

  lemma Pad3Value(n: int)
    requires 0 <= n < 1000
    ensures Value(Pad3(n)) == n
  {
    assert [DigitChar(n / 100)][..0] == [];
    assert Value([DigitChar(n / 100)]) == n / 100;
    Pad2Value(n % 100);
    ValueAppend2([DigitChar(n / 100)], Pad2(n % 100));
  }

  lemma Pad4Value(n: int)
    requires 0 <= n < 10000
    ensures Value(Pad4(n)) == n
  {
    Pad2Value(n / 100);
    Pad2Value(n % 100);
    ValueAppend2(Pad2(n / 100), Pad2(n % 100));
  }

  /** A field that runs up to a non-field character ends there. */
  lemma {:induction false} FieldAt(t: string, i: nat, j: nat, seps: set<char>)
    requires i <= j < |t|
    requires AllDigits(t[i..j])
    requires t[j] in seps && !InField(t[j])
    ensures Field(t, i, seps) == Some((t[i..j], j + 1))
    decreases j - i
  {
    if i < j {
      assert t[i] == t[i..j][0];
      assert t[i + 1..j] == t[i..j][1..];
      FieldAt(t, i + 1, j, seps);
    }
  }

  lemma {:induction false} RemoveZAppend(a: string, b: string)
    ensures RemoveZ(a + b) == RemoveZ(a) + RemoveZ(b)
  {
    if a == [] {
      assert a + b == b;
    } else {
      assert (a + b)[0] == a[0];
      assert (a + b)[1..] == a[1..] + b;
      RemoveZAppend(a[1..], b);
    }
  }

  /** The fields the millisecond form is cut into. */
  function IsoFields(dt: DateTime): Fields
    requires Valid(dt)
  {
    Fields(Pad4(dt.year), Pad2(dt.month), Pad2(dt.day), Pad2(dt.hour),
           Pad2(dt.minute), Pad2(dt.second), Pad3(dt.micro / 1000))
  }

  /** The millisecond form without its `Z`, written field by field. */
  function IsoText(f: Fields): string
  {
    f.year + "-" + f.month + "-" + f.day + "T" + f.hour + ":" + f.minute + ":"
    + f.second + "." + f.fraction
  }

  /** Digits and separators hold no `Z`. */
  lemma IsoTextNoZ(f: Fields)
    requires AllDigits(f.year) && AllDigits(f.month) && AllDigits(f.day)
    requires AllDigits(f.hour) && AllDigits(f.minute) && AllDigits(f.second)
    requires AllDigits(f.fraction)
    ensures 'Z' !in IsoText(f)
  {
    var t := IsoText(f);
    var a := f.year + "-" + f.month + "-" + f.day + "T";
    var b := f.hour + ":" + f.minute + ":" + f.second + "." + f.fraction;
    assert t == a + b;
    assert 'Z' !in a;
    assert 'Z' !in b;
  }

  lemma IsoStringText(dt: DateTime)
    requires Valid(dt)
    ensures IsoString(dt) == IsoText(IsoFields(dt)) + "Z"
    ensures 'Z' !in IsoText(IsoFields(dt))
  {
    IsoTextNoZ(IsoFields(dt));
  }

  /** Where each field sits in the laid-out text. */
  lemma TextSlices(f: Fields)
    requires |f.year| == 4 && |f.month| == 2 && |f.day| == 2
    requires |f.hour| == 2 && |f.minute| == 2 && |f.second| == 2
    ensures var t := IsoText(f);
      && t[0..4] == f.year && t[4] == '-' && t[5..7] == f.month && t[7] == '-'
      && t[8..10] == f.day && t[10] == 'T' && t[11..13] == f.hour && t[13] == ':'
      && t[14..16] == f.minute && t[16] == ':' && t[17..19] == f.second && t[19] == '.'
      && t[20..] == f.fraction
  {
    var t := IsoText(f);
    var a := f.year + "-" + f.month + "-" + f.day + "T";
    var b := f.hour + ":" + f.minute + ":" + f.second + "." + f.fraction;
    assert t == a + b;
    DateSlices(f);
    TimeSlices(f);
    SliceLeft(a, b, 0, 4);
    SliceLeft(a, b, 5, 7);
    SliceLeft(a, b, 8, 10);
    SliceRight(a, b, 11, 13);
    SliceRight(a, b, 14, 16);
    SliceRight(a, b, 17, 19);
    SliceRight(a, b, 20, |t|);
  }

  lemma SliceLeft(a: string, b: string, i: nat, j: nat)
    requires i <= j <= |a|
    ensures (a + b)[i..j] == a[i..j]
  {
  }

  lemma SliceRight(a: string, b: string, i: nat, j: nat)
    requires |a| <= i <= j <= |a| + |b|
    ensures (a + b)[i..j] == b[i - |a|..j - |a|]
  {
  }

  /** Where the date fields sit in the first eleven characters. */
  lemma DateSlices(f: Fields)
    requires |f.year| == 4 && |f.month| == 2 && |f.day| == 2
    ensures var a := f.year + "-" + f.month + "-" + f.day + "T";
      && |a| == 11 && a[0..4] == f.year && a[4] == '-' && a[5..7] == f.month && a[7] == '-'
      && a[8..10] == f.day && a[10] == 'T'
  {
    var a := f.year + "-" + f.month + "-" + f.day + "T";
    assert a == f.year + ("-" + f.month) + ("-" + f.day) + "T";
  }

  /** Where the time fields sit after the `T`. */
  lemma TimeSlices(f: Fields)
    requires |f.hour| == 2 && |f.minute| == 2 && |f.second| == 2
    ensures var b := f.hour + ":" + f.minute + ":" + f.second + "." + f.fraction;
      && b[0..2] == f.hour && b[2] == ':' && b[3..5] == f.minute && b[5] == ':'
      && b[6..8] == f.second && b[8] == '.' && b[9..] == f.fraction
  {
  }

  /** Text laid out with the format's separators is cut back into its fields. */
  lemma SplitText(f: Fields)
    requires |f.year| == 4 && |f.month| == 2 && |f.day| == 2
    requires |f.hour| == 2 && |f.minute| == 2 && |f.second| == 2
    requires AllDigits(f.year) && AllDigits(f.month) && AllDigits(f.day)
    requires AllDigits(f.hour) && AllDigits(f.minute) && AllDigits(f.second)
    ensures Split(IsoText(f)) == Some(f)
  {
    var t := IsoText(f);
    TextSlices(f);
    FieldAt(t, 0, 4, {'-'});
    FieldAt(t, 5, 7, {'-'});
    FieldAt(t, 8, 10, {'T', 't'});
    FieldAt(t, 11, 13, {':'});
    FieldAt(t, 14, 16, {':'});
    FieldAt(t, 17, 19, {'.'});
  }

  /** The millisecond form without its `Z` is cut at the right places. */
  lemma SplitIso(dt: DateTime)
    requires Valid(dt)
    ensures RemoveZ(IsoString(dt)) == IsoText(IsoFields(dt))
    ensures Split(IsoText(IsoFields(dt))) == Some(IsoFields(dt))
  {
    IsoStringText(dt);
    RemoveZAppend(IsoText(IsoFields(dt)), "Z");
    SplitText(IsoFields(dt));
  }

  /** Each printed date field is in its directive's language and reads
      back as the number it was printed from. */
  lemma DateTokens(dt: DateTime)
    requires Valid(dt)
    ensures var f := IsoFields(dt);
      && YearToken(f.year) && Value(f.year) == dt.year
      && SmallNumber(f.month, 1, 12) && Value(f.month) == dt.month
      && DayToken(f.day) && DayValue(f.day) == dt.day
  {
    Pad4Value(dt.year);
    Pad2Value(dt.month);
    Pad2Value(dt.day);
  }

  /** The same for the time fields. */
  lemma TimeTokens(dt: DateTime)
    requires Valid(dt) && dt.micro % 1000 == 0
    ensures var f := IsoFields(dt);
      && SmallNumber(f.hour, 0, 23) && Value(f.hour) == dt.hour
      && SmallNumber(f.minute, 0, 59) && Value(f.minute) == dt.minute
      && SmallNumber(f.second, 0, 61) && Value(f.second) == dt.second
      && FractionToken(f.fraction) && Micro(f.fraction) == dt.micro
  {
    Pad2Value(dt.hour);
    Pad2Value(dt.minute);
    Pad2Value(dt.second);
    Pad3Value(dt.micro / 1000);
    MicroOfMillis(Pad3(dt.micro / 1000));
  }

  /** Three fraction digits are milliseconds. */
  lemma MicroOfMillis(p: string)
    requires |p| == 3
    ensures Micro(p) == 1000 * Value(p)
  {
    var p1 := p + "0";
    var p2 := p1 + "0";
    var p3 := p2 + "0";
    assert p1[..|p1| - 1] == p && p1[|p1| - 1] == '0';
    assert p2[..|p2| - 1] == p1 && p2[|p2| - 1] == '0';
    assert p3[..|p3| - 1] == p2 && p3[|p3| - 1] == '0';
    assert Micro(p) == Micro(p1) == Micro(p2) == Micro(p3) == Value(p3);
    assert DigitValue('0') == 0;
    assert Value(p3) == 10 * Value(p2) == 100 * Value(p1) == 1000 * Value(p);
  }

  lemma DecodeIso(dt: DateTime)
    requires Valid(dt) && dt.micro % 1000 == 0
    ensures Decode(IsoFields(dt)) == Some(dt)
  {
    DateTokens(dt);
    TimeTokens(dt);
  }

  /** Parsing what the upstream service writes gives back the date-time it
      printed: strptime inverts the millisecond form. */
  lemma ParseIso(dt: DateTime)
    requires Valid(dt) && dt.micro % 1000 == 0
    ensures Strptime(RemoveZ(IsoString(dt))) == Some(dt)
  {
    SplitIso(dt);
    DecodeIso(dt);
  }

  /** The converters print back what they parsed from the millisecond form. */
  lemma ConvertIsoValues(dt: DateTime)
    requires Valid(dt) && dt.micro % 1000 == 0
    ensures ToDate(IsoString(dt)) == Some(FormatDate(dt))
    ensures ToDateTime(IsoString(dt)) == Some(FormatDateTime(dt))
  {
    ParseIso(dt);
  }

  /** On the upstream's millisecond form, the date-only converter returns
      the first ten characters, and the date-time converter those same ten,
      a blank, then `HH:MM:SS`: the fractional seconds and the `Z` dropped. */
  lemma ConvertIso(dt: DateTime)
    requires Valid(dt) && dt.micro % 1000 == 0
    ensures ToDate(IsoString(dt)) == Some(IsoString(dt)[..10])
    ensures ToDateTime(IsoString(dt)) == Some(IsoString(dt)[..10] + " " + IsoString(dt)[11..19])
  {
    ConvertIsoValues(dt);
    IsoPrefix(dt);
  }

  /** Where the date and the time sit in the millisecond form. */
  lemma IsoPrefix(dt: DateTime)
    requires Valid(dt)
    ensures IsoString(dt)[..10] == FormatDate(dt)
    ensures IsoString(dt)[11..19] == FormatTime(dt)
  {
    var iso, rest := IsoString(dt), "." + Pad3(dt.micro / 1000) + "Z";
    assert iso[11..] == FormatTime(dt) + rest;
    assert iso[11..19] == iso[11..][..8];
  }

  /** The date-only result is always the first ten characters of the
      date-time result, and one succeeds exactly when the other does. */
  lemma DateIsPrefix(iso: string)
    ensures ToDate(iso).Some? <==> ToDateTime(iso).Some?
    ensures ToDate(iso).Some? ==> ToDateTime(iso).value[..10] == ToDate(iso).value
  {
  }

  /** Without a `.` no string is accepted: the fraction is mandatory. */
  lemma FractionRequired(iso: string)
    requires '.' !in iso
    ensures ToDate(iso) == None && ToDateTime(iso) == None
  {
  }

  /** The example of the converters' documentation. */
  lemma Example(iso: string)
    requires iso == "2025-02-24T00:00:00.000Z"
    ensures ToDate(iso) == Some("2025-02-24")
    ensures ToDateTime(iso) == Some("2025-02-24 00:00:00")
  {
    var dt := DateTime(2025, 2, 24, 0, 0, 0, 0);
    var f := Fields("2025", "02", "24", "00", "00", "00", "000");
    ExampleFields(dt, f);
    ExampleText(f);
    assert iso == IsoText(f) + "Z";
    IsoStringText(dt);
    ConvertIsoValues(dt);
    ExampleFormat(dt);
  }

  lemma ExampleFields(dt: DateTime, f: Fields)
    requires dt == DateTime(2025, 2, 24, 0, 0, 0, 0)
    requires f == Fields("2025", "02", "24", "00", "00", "00", "000")
    ensures Valid(dt) && IsoFields(dt) == f
  {
    assert Pad4(2025) == "2025" && Pad2(2) == "02" && Pad2(24) == "24";
    assert Pad2(0) == "00" && Pad3(0) == "000";
  }

  lemma ExampleText(f: Fields)
    requires f == Fields("2025", "02", "24", "00", "00", "00", "000")
    ensures IsoText(f) == "2025-02-24T00:00:00.000"
  {
  }

  lemma ExampleFormat(dt: DateTime)
    requires dt == DateTime(2025, 2, 24, 0, 0, 0, 0)
    ensures Valid(dt)
    ensures FormatDate(dt) == "2025-02-24"
    ensures FormatDateTime(dt) == "2025-02-24 00:00:00"
  {
    assert Pad4(2025) == "2025" && Pad2(2) == "02" && Pad2(24) == "24" && Pad2(0) == "00";
    assert FormatDate(dt) == "2025" + "-" + "02" + "-" + "24";
    assert FormatTime(dt) == "00" + ":" + "00" + ":" + "00";
  }

  /** Parsing text laid out like the millisecond form comes down to
      checking its fields. */
  lemma StrptimeText(f: Fields)
    requires |f.year| == 4 && |f.month| == 2 && |f.day| == 2
    requires |f.hour| == 2 && |f.minute| == 2 && |f.second| == 2
    requires AllDigits(f.year) && AllDigits(f.month) && AllDigits(f.day)
    requires AllDigits(f.hour) && AllDigits(f.minute) && AllDigits(f.second)
    requires AllDigits(f.fraction)
    ensures Strptime(RemoveZ(IsoText(f) + "Z")) == Decode(f)
  {
    IsoTextNoZ(f);
    RemoveZAppend(IsoText(f), "Z");
    assert RemoveZ("Z") == [];
    var t := RemoveZ(IsoText(f) + "Z");
    assert t == IsoText(f);
    SplitText(f);
    assert Split(t) == Some(f);
  }

  /** An impossible day of the month is refused by the calendar check. */
  lemma ImpossibleDay(iso: string)
    requires iso == "2025-02-30T00:00:00.000Z"
    ensures ToDate(iso) == None && ToDateTime(iso) == None
  {
    var f := Fields("2025", "02", "30", "00", "00", "00", "000");
    ImpossibleText(f);
    assert iso == IsoText(f) + "Z";
    StrptimeText(f);
    ImpossibleFields(f);
  }

  lemma ImpossibleText(f: Fields)
    requires f == Fields("2025", "02", "30", "00", "00", "00", "000")
    ensures IsoText(f) == "2025-02-30T00:00:00.000"
    ensures AllDigits(f.year) && AllDigits(f.month) && AllDigits(f.day)
    ensures AllDigits(f.hour) && AllDigits(f.minute) && AllDigits(f.second)
    ensures AllDigits(f.fraction)
  {
  }

  lemma ImpossibleFields(f: Fields)
    requires f == Fields("2025", "02", "30", "00", "00", "00", "000")
    ensures Decode(f) == None
  {
    assert f.month == Pad2(2) && f.day == Pad2(30);
    Pad2Value(2);
    Pad2Value(30);
  }
}
