/** Calendar dates and timestamps as Python's datetime module has them
    (years 1 to 9999), their ordering, stepping by one day, and the text
    forms the ledger reads and writes: the ISO 8601 extended calendar date
    YYYY-MM-DD (section 4.1.2.2 of ISO 8601:2004), the timestamp form of
    datetime.isoformat(), and the three strptime patterns of the forms. */
module Calendar {
  import opened Text
  import opened Options

  datatype Date = Date(year: nat, month: nat, day: nat)

  /** A clock reading without time zone (datetime.utcnow()). */
  datatype DateTime = DateTime(date: Date, hour: nat, minute: nat, second: nat, micro: nat)

  predicate IsLeap(y: nat) {
    y % 4 == 0 && (y % 100 != 0 || y % 400 == 0)
  }

  function DaysInMonth(y: nat, m: nat): (n: nat)
    ensures 28 <= n <= 31
  {
    if m == 2 then (if IsLeap(y) then 29 else 28)
    else if m == 4 || m == 6 || m == 9 || m == 11 then 30
    else 31
  }

  /** The dates Python's date type can hold. */
  predicate ValidDate(d: Date) {
    1 <= d.year <= 9999 && 1 <= d.month <= 12 && 1 <= d.day <= DaysInMonth(d.year, d.month)
  }

  predicate ValidDateTime(t: DateTime) {
    ValidDate(t.date) && t.hour < 24 && t.minute < 60 && t.second < 60 && t.micro < 1000000
  }

  /** Python's a <= b on dates: chronological order. */
  predicate NotAfter(a: Date, b: Date) {
    a.year < b.year
    || (a.year == b.year && (a.month < b.month || (a.month == b.month && a.day <= b.day)))
  }

  predicate Before(a: Date, b: Date) {
    NotAfter(a, b) && a != b
  }

  lemma NotAfterTotal(a: Date, b: Date)
    ensures NotAfter(a, b) || NotAfter(b, a)
    ensures NotAfter(a, b) && NotAfter(b, a) ==> a == b
  {
  }

  lemma NotAfterTransitive(a: Date, b: Date, c: Date)
    requires NotAfter(a, b) && NotAfter(b, c)
    ensures NotAfter(a, c)
  {
  }

  /** d + timedelta(days=1). */
  function NextDay(d: Date): (r: Date)
    ensures Before(d, r)
  {
    if d.day < DaysInMonth(d.year, d.month) then Date(d.year, d.month, d.day + 1)
    else if d.month < 12 then Date(d.year, d.month + 1, 1)
    else Date(d.year + 1, 1, 1)
  }

  /** d - timedelta(days=1). */
  function PrevDay(d: Date): (r: Date)
    requires ValidDate(d) && (d.year, d.month, d.day) != (1, 1, 1)
    ensures ValidDate(r) && Before(r, d) && NextDay(r) == d
  {
    if d.day > 1 then Date(d.year, d.month, d.day - 1)
    else if d.month > 1 then Date(d.year, d.month - 1, DaysInMonth(d.year, d.month - 1))
    else Date(d.year - 1, 12, 31)
  }

  lemma NextDayValid(d: Date)
    requires ValidDate(d) && (d.year, d.month, d.day) != (9999, 12, 31)
    ensures ValidDate(NextDay(d))
  {
  }

  /** No date lies strictly between a day and the next. */
  lemma NextDayIsNext(d: Date, e: Date)
    requires ValidDate(d) && ValidDate(e) && Before(d, e)
    ensures NotAfter(NextDay(d), e)
  {
  }

  /** d.replace(day=n), for the days every month has. */
  function WithDay(d: Date, n: nat): (r: Date)
    requires 1 <= n <= 28
    ensures ValidDate(d) ==> ValidDate(r)
  {
    Date(d.year, d.month, n)
  }

  // ---- ISO 8601 text: date.isoformat() and date.fromisoformat() ----

  /** date.isoformat(): YYYY-MM-DD. */
  function FormatDate(d: Date): (s: string)
    ensures |s| == 10
  {
    PadDigits(d.year, 4) + "-" + PadDigits(d.month, 2) + "-" + PadDigits(d.day, 2)
  }

  /** date.fromisoformat(): exactly YYYY-MM-DD naming a real date; None
      where Python raises ValueError. */
  function ParseIsoDate(s: string): (r: Option<Date>)
    ensures r.Some? ==> ValidDate(r.value)
  {
    if |s| == 10 && s[4] == '-' && s[7] == '-'
       && AllDigits(s[..4]) && AllDigits(s[5..7]) && AllDigits(s[8..])
    then
      var d := Date(DigitsValue(s[..4]), DigitsValue(s[5..7]), DigitsValue(s[8..]));
      if ValidDate(d) then Some(d) else None
    else None
  }

  lemma FormatDatePieces(d: Date)
    ensures FormatDate(d)[..4] == PadDigits(d.year, 4)
    ensures FormatDate(d)[4] == '-' && FormatDate(d)[7] == '-'
    ensures FormatDate(d)[5..7] == PadDigits(d.month, 2)
    ensures FormatDate(d)[8..] == PadDigits(d.day, 2)
  {
  }

  /** Every real date reads back from its ISO text. */
  lemma IsoDateRoundTrip(d: Date)
    requires ValidDate(d)
    ensures ParseIsoDate(FormatDate(d)) == Some(d)
  {
    FormatDatePieces(d);
    PadDigitsValue(d.year, 4);
    PadDigitsValue(d.month, 2);
    PadDigitsValue(d.day, 2);
  }

  lemma LastDigit(a: nat, d: nat)
    requires d < 10
    ensures (a * 10 + d) / 10 == a && (a * 10 + d) % 10 == d
  {
  }

  /** A zero-padded field is determined by its value. */
  lemma {:induction false} DigitsCanonical(t: string)
    requires AllDigits(t)
    ensures PadDigits(DigitsValue(t), |t|) == t
  {
    if t != [] {
      var init := t[..|t| - 1];
      var last := t[|t| - 1];
      assert t == init + [last];
      DigitsCanonical(init);
      var v := DigitsValue(t);
      assert v == DigitsValue(init) * 10 + DigitValue(last);
      LastDigit(DigitsValue(init), DigitValue(last));
      assert PadDigits(v, |t|) == PadDigits(v / 10, |t| - 1) + [DigitChar(v % 10)];
    }
  }

  /** ...and the only text that reads as a date is that date's ISO text. */
  lemma IsoDateCanonical(s: string)
    requires ParseIsoDate(s).Some?
    ensures FormatDate(ParseIsoDate(s).value) == s
  {
    DigitsCanonical(s[..4]);
    DigitsCanonical(s[5..7]);
    DigitsCanonical(s[8..]);
    var d := ParseIsoDate(s).value;
    FormatDatePieces(d);
    assert s == s[..4] + "-" + s[5..7] + "-" + s[8..];
  }

  // ---- datetime.isoformat() and datetime.fromisoformat() ----

  /** HH:MM:SS, with .ffffff appended when there are microseconds. */
  function FormatTime(t: DateTime): string {
    PadDigits(t.hour, 2) + ":" + PadDigits(t.minute, 2) + ":" + PadDigits(t.second, 2)
    + (if t.micro == 0 then "" else "." + PadDigits(t.micro, 6))
  }

  /** datetime.isoformat(): the date, 'T', the time. */
  function FormatDateTime(t: DateTime): string {
    FormatDate(t.date) + "T" + FormatTime(t)
  }

  /** A two-digit field at position i of s. */
  function Field2(s: string, i: nat): Option<int>
    requires i + 2 <= |s|
  {
    if AllDigits(s[i..i + 2]) then Some(DigitsValue(s[i..i + 2])) else None
  }

  /** The time part datetime.fromisoformat() accepts: HH, HH:MM,
      HH:MM:SS, HH:MM:SS.fff or HH:MM:SS.ffffff, as (hour, minute,
      second, microsecond). */
  function ParseTime(s: string): Option<(nat, nat, nat, nat)> {
    if |s| < 2 || Field2(s, 0).None? then None
    else if |s| == 2 then Some((Field2(s, 0).value, 0, 0, 0))
    else if |s| < 5 || s[2] != ':' || Field2(s, 3).None? then None
    else if |s| == 5 then Some((Field2(s, 0).value, Field2(s, 3).value, 0, 0))
    else if |s| < 8 || s[5] != ':' || Field2(s, 6).None? then None
    else if |s| == 8 then Some((Field2(s, 0).value, Field2(s, 3).value, Field2(s, 6).value, 0))
    else if s[8] != '.' || !AllDigits(s[9..]) || (|s| != 12 && |s| != 15) then None
    else
      var frac := DigitsValue(s[9..]);
      Some((Field2(s, 0).value, Field2(s, 3).value, Field2(s, 6).value,
            if |s| == 12 then frac * 1000 else frac))
  }

  /** datetime.fromisoformat(): a YYYY-MM-DD date, optionally followed by
      any one separator character and a time; None where Python raises
      ValueError. */
  function ParseIsoDateTime(s: string): (r: Option<DateTime>)
    ensures r.Some? ==> ValidDateTime(r.value)
  {
    if |s| < 10 then None
    else
      match ParseIsoDate(s[..10])
      case None => None
      case Some(d) =>
        if |s| == 10 then Some(DateTime(d, 0, 0, 0, 0))
        else
          match ParseTime(s[11..])
          case None => None
          case Some((h, mi, sec, us)) =>
            var t := DateTime(d, h, mi, sec, us);
            if ValidDateTime(t) then Some(t) else None
  }

  lemma Field2Pad(s: string, i: nat, n: nat)
    requires n < 100 && i + 2 <= |s| && s[i..i + 2] == PadDigits(n, 2)
    ensures Field2(s, i) == Some(n)
  {
    PadDigitsValue(n, 2);
  }

  /** The HH:MM:SS prefix of a time text reads back field by field. */
  lemma HmsFields(s: string, t: DateTime)
    requires ValidDateTime(t) && |s| >= 8
    requires s[..8] == PadDigits(t.hour, 2) + ":" + PadDigits(t.minute, 2) + ":" + PadDigits(t.second, 2)
    ensures s[2] == ':' && s[5] == ':'
    ensures Field2(s, 0) == Some(t.hour) && Field2(s, 3) == Some(t.minute) && Field2(s, 6) == Some(t.second)
  {
    assert s[0..2] == s[..8][0..2] == PadDigits(t.hour, 2);
    assert s[3..5] == s[..8][3..5] == PadDigits(t.minute, 2);
    assert s[6..8] == s[..8][6..8] == PadDigits(t.second, 2);
    assert s[2] == s[..8][2] && s[5] == s[..8][5];
    Field2Pad(s, 0, t.hour);
    Field2Pad(s, 3, t.minute);
    Field2Pad(s, 6, t.second);
  }

  /** Where the pieces of a time text sit. */
  lemma FormatTimeLayout(t: DateTime)
    ensures var s := FormatTime(t);
      && |s| >= 8
      && s[..8] == PadDigits(t.hour, 2) + ":" + PadDigits(t.minute, 2) + ":" + PadDigits(t.second, 2)
      && (t.micro == 0 ==> |s| == 8)
      && (t.micro != 0 ==> |s| == 15 && s[8] == '.' && s[9..] == PadDigits(t.micro, 6))
  {
    var hms := PadDigits(t.hour, 2) + ":" + PadDigits(t.minute, 2) + ":" + PadDigits(t.second, 2);
    var tail := if t.micro == 0 then "" else "." + PadDigits(t.micro, 6);
    assert FormatTime(t) == hms + tail;
    assert (hms + tail)[..8] == hms;
  }

  lemma {:induction false} TimeRoundTrip(t: DateTime)
    requires ValidDateTime(t)
    ensures ParseTime(FormatTime(t)) == Some((t.hour, t.minute, t.second, t.micro))
  {
    FormatTimeLayout(t);
    HmsFields(FormatTime(t), t);
    if t.micro != 0 {
      PadDigitsValue(t.micro, 6);
    }
  }

  /** Every valid timestamp reads back from its isoformat() text. */
  lemma {:induction false} DateTimeRoundTrip(t: DateTime)
    requires ValidDateTime(t)
    ensures ParseIsoDateTime(FormatDateTime(t)) == Some(t)
  {
    var s := FormatDateTime(t);
    assert s[..10] == FormatDate(t.date);
    assert s[11..] == FormatTime(t);
    IsoDateRoundTrip(t.date);
    TimeRoundTrip(t);
  }

  // ---- strptime ----

  /** datetime.strptime(text, fmt).date() for the formats "%Y-%m-%d"
      (yearFirst, sep '-'), "%d-%m-%Y" and "%d/%m/%Y": three fields split
      on the separator, the year of exactly four digits, month and day of
      one or two, naming a real date. None where Python raises
      ValueError. */
  function Strptime(s: string, sep: char, yearFirst: bool): (r: Option<Date>)
    ensures r.Some? ==> ValidDate(r.value)
  {
    var parts := SplitOn(s, sep);
    if |parts| != 3 then None
    else
      var y := if yearFirst then parts[0] else parts[2];
      var m := parts[1];
      var dd := if yearFirst then parts[2] else parts[0];
      if |y| == 4 && 1 <= |m| <= 2 && 1 <= |dd| <= 2
         && AllDigits(y) && AllDigits(m) && AllDigits(dd)
      then
        var d := Date(DigitsValue(y), DigitsValue(m), DigitsValue(dd));
        if ValidDate(d) then Some(d) else None
      else None
  }

  /** date.strftime("%Y-%m-%d"), written as the ISO text. */
  function StrftimeYmd(d: Date): string {
    FormatDate(d)
  }

  lemma FormatDateJoin(d: Date)
    ensures FormatDate(d) == JoinWith([PadDigits(d.year, 4), PadDigits(d.month, 2), PadDigits(d.day, 2)], '-')
  {
    var parts := [PadDigits(d.year, 4), PadDigits(d.month, 2), PadDigits(d.day, 2)];
    assert parts[1..] == [parts[1], parts[2]] && parts[1..][1..] == [parts[2]];
    assert JoinWith(parts[1..], '-') == parts[1] + "-" + parts[2];
  }

  /** strptime with "%Y-%m-%d" reads back what strftime wrote. */
  lemma StrptimeRoundTrip(d: Date)
    requires ValidDate(d)
    ensures Strptime(StrftimeYmd(d), '-', true) == Some(d)
  {
    var parts := [PadDigits(d.year, 4), PadDigits(d.month, 2), PadDigits(d.day, 2)];
    FormatDateJoin(d);
    assert forall k :: 0 <= k < 3 ==> AllDigits(parts[k]);
    assert forall k :: 0 <= k < 3 ==> '-' !in parts[k];
    SplitJoin(parts, '-');
    PadDigitsValue(d.year, 4);
    PadDigitsValue(d.month, 2);
    PadDigitsValue(d.day, 2);
  }
}
