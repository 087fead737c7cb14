/** The two form readers of the expense dialogs (app.py): the list of
    participants typed as "name[:amount], ..." and a date typed in one of
    three forms, with today as the fallback. */
module Entries {
  import opened Text
  import opened Options
  import opened Decimal
  import opened Calendar
  import opened Ledger

  // ---- _parse_date_or_today ----

  /** _parse_date_or_today: the stripped text read as YYYY-MM-DD, then as
      DD-MM-YYYY, then as DD/MM/YYYY; today when the text is blank or no
      form fits. A raw value of None is the empty text here. */
  function ParseDateOrToday(raw: string, today: Date): (d: Date)
    ensures ValidDate(today) ==> ValidDate(d)
    ensures AllSpace(raw) ==> d == today
  {
    var text := Strip(raw);
    if text == [] then today
    else
      var iso := Strptime(text, '-', true);
      if iso.Some? then iso.value
      else
        var dashed := Strptime(text, '-', false);
        if dashed.Some? then dashed.value
        else Strptime(text, '/', false).GetOr(today)
  }

  /** The text of a date in the day-first forms, DD<sep>MM<sep>YYYY. */
  function DayFirstText(d: Date, sep: char): string {
    PadDigits(d.day, 2) + [sep] + PadDigits(d.month, 2) + [sep] + PadDigits(d.year, 4)
  }

  /** A date written as YYYY-MM-DD is read back whatever today is. */
  lemma DateOrTodayReadsIso(d: Date, today: Date)
    requires ValidDate(d)
    ensures ParseDateOrToday(StrftimeYmd(d), today) == d
  {
    var s := StrftimeYmd(d);
    FormatDatePieces(d);
    DigitsAreNotSpace(PadDigits(d.year, 4));
    DigitsAreNotSpace(PadDigits(d.day, 2));
    assert s[0] == PadDigits(d.year, 4)[0] && s[9] == PadDigits(d.day, 2)[1];
    assert IsStripped(s);
    StrptimeRoundTrip(d);
  }

  /** A date written day first, with '-' or '/', is read back too: the
      year-first pattern refuses it before the day-first one reads it. */
  lemma DateOrTodayReadsDayFirst(d: Date, sep: char, today: Date)
    requires ValidDate(d) && (sep == '-' || sep == '/')
    ensures ParseDateOrToday(DayFirstText(d, sep), today) == d
  {
    var s := DayFirstText(d, sep);
    DayFirstPieces(d, sep);
    DayFirstStrptime(d, sep);
    if sep == '/' {
      SplitWithoutSep(s, '-');
    }
  }

  lemma DayFirstPieces(d: Date, sep: char)
    requires sep == '-' || sep == '/'
    ensures var s := DayFirstText(d, sep);
      && IsStripped(s) && (sep == '/' ==> '-' !in s)
      && SplitOn(s, sep) == [PadDigits(d.day, 2), PadDigits(d.month, 2), PadDigits(d.year, 4)]
  {
    var parts := [PadDigits(d.day, 2), PadDigits(d.month, 2), PadDigits(d.year, 4)];
    var s := DayFirstText(d, sep);
    assert parts[1..] == [parts[1], parts[2]] && parts[1..][1..] == [parts[2]];
    assert JoinWith(parts[1..][1..], sep) == parts[2];
    assert JoinWith(parts[1..], sep) == parts[1] + [sep] + parts[2];
    assert s == JoinWith(parts, sep);
    assert forall k :: 0 <= k < 3 ==> AllDigits(parts[k]);
    assert forall k :: 0 <= k < 3 ==> '-' !in parts[k] && '/' !in parts[k];
    DigitsAreNotSpace(parts[0]);
    DigitsAreNotSpace(parts[2]);
    assert s[0] == parts[0][0] && s[|s| - 1] == parts[2][3];
    SplitJoin(parts, sep);
  }

  lemma DayFirstStrptime(d: Date, sep: char)
    requires ValidDate(d) && (sep == '-' || sep == '/')
    requires SplitOn(DayFirstText(d, sep), sep) == [PadDigits(d.day, 2), PadDigits(d.month, 2), PadDigits(d.year, 4)]
    ensures Strptime(DayFirstText(d, sep), sep, true) == None
    ensures Strptime(DayFirstText(d, sep), sep, false) == Some(d)
  {
    PadDigitsValue(d.year, 4);
    PadDigitsValue(d.month, 2);
    PadDigitsValue(d.day, 2);
  }

  // ---- AddExpenseDialog._parse_shared_entries ----

  /** What one comma-separated piece, already stripped, contributes: nothing
      when blank; a lower-cased name and the amount float() makes of the text
      after the first ':' (None when float() refuses it); or a lower-cased
      name alone. A piece whose name before the ':' is blank is dropped. */
  function EntryOf(part: string): (e: Option<SharedSplit>)
    requires IsStripped(part)
    ensures e.Some? ==> FormName(e.value)
  {
    if part == [] then None
    else
      var colon := IndexOf(part, ':');
      if colon >= 0 then
        var name := Lower(Strip(part[..colon]));
        LowerKeepsStripped(Strip(part[..colon]));
        LowerIsLower(Strip(part[..colon]));
        if name == [] then None
        else Some(SharedSplit(name, ParseDecimal(Strip(part[colon + 1..]))))
      else
        LowerKeepsStripped(Strip(part));
        LowerIsLower(Strip(part));
        Some(SharedSplit(Lower(Strip(part)), None))
  }

  /** A participant name as the form leaves it: non-blank, stripped and
      lower-case. */
  predicate FormName(e: SharedSplit) {
    e.name != [] && IsStripped(e.name) && IsLower(e.name)
  }

  /** The pieces of the text split on ',', each stripped. */
  function StrippedPieces(chunks: seq<string>): (parts: seq<string>)
    ensures |parts| == |chunks|
    ensures forall k :: 0 <= k < |parts| ==> IsStripped(parts[k])
  {
    if chunks == [] then []
    else StrippedPieces(chunks[..|chunks| - 1]) + [Strip(chunks[|chunks| - 1])]
  }

  /** The entries the stripped pieces make, in order. */
  function EntriesOf(parts: seq<string>): (es: seq<SharedSplit>)
    requires forall k :: 0 <= k < |parts| ==> IsStripped(parts[k])
    ensures |es| <= |parts|
    ensures forall k :: 0 <= k < |es| ==> FormName(es[k])
  {
    if parts == [] then []
    else
      var front := EntriesOf(parts[..|parts| - 1]);
      match EntryOf(parts[|parts| - 1])
      case None => front
      case Some(e) => front + [e]
  }

  lemma EntriesOfStep(parts: seq<string>, i: int)
    requires 0 <= i < |parts|
    requires forall k :: 0 <= k < |parts| ==> IsStripped(parts[k])
    ensures EntriesOf(parts[..i + 1])
      == EntriesOf(parts[..i]) + (if EntryOf(parts[i]).Some? then [EntryOf(parts[i]).value] else [])
  {
    assert parts[..i + 1][..i] == parts[..i];
  }

  /** What _parse_shared_entries returns for the typed text. */
  function SharedEntries(rawText: string): seq<SharedSplit> {
    if rawText == [] then [] else EntriesOf(StrippedPieces(SplitOn(rawText, ',')))
  }

  /** _parse_shared_entries: the participants the text names, each with
      a lower-cased, non-blank, stripped name. */
  method ParseSharedEntries(rawText: string) returns (entries: seq<SharedSplit>)
    ensures entries == SharedEntries(rawText)
    ensures forall k :: 0 <= k < |entries| ==> FormName(entries[k])
  {
    entries := [];
    if rawText == [] {
      return;
    }
    var chunks := SplitOn(rawText, ',');
    var parts := StrippedPieces(chunks);
    var i := 0;
    while i < |parts|
      invariant 0 <= i <= |parts|
      invariant entries == EntriesOf(parts[..i])
    {
      EntriesOfStep(parts, i);
      var entry := EntryOf(parts[i]);
      if entry.Some? {
        entries := entries + [entry.value];
      }
      i := i + 1;
    }
    assert parts[..|parts|] == parts;
  }

  // ---- writing the list back ----

  /** A participant the form can name: a non-blank, stripped, lower-case
      name holding neither separator. */
  predicate Writable(e: SharedSplit) {
    FormName(e) && ':' !in e.name && ',' !in e.name
  }

  /** How one participant is typed: "name" or "name:amount". */
  function EntryText(e: SharedSplit): string {
    if e.amount.Some? then e.name + ":" + FormatCents(e.amount.value) else e.name
  }

  function EntryTexts(es: seq<SharedSplit>): (ts: seq<string>)
    ensures |ts| == |es|
  {
    if es == [] then [] else EntryTexts(es[..|es| - 1]) + [EntryText(es[|es| - 1])]
  }

  /** The typed text of a participant list: the entries joined by ','. */
  function EntriesText(es: seq<SharedSplit>): string {
    if es == [] then "" else JoinWith(EntryTexts(es), ',')
  }

  lemma FormatCentsHasNoSeparator(c: int)
    ensures ':' !in FormatCents(c) && ',' !in FormatCents(c)
  {
    var m := Abs(c);
    var w := NatText(m / 100);
    var f := PadDigits(m % 100, 2);
    assert Unsigned(m) == w + "." + f;
    assert forall k :: 0 <= k < |Unsigned(m)| ==> IsDigit(Unsigned(m)[k]) || Unsigned(m)[k] == '.';
  }

  /** One typed participant is read back as itself. */
  lemma EntryRoundTrip(e: SharedSplit)
    requires Writable(e)
    ensures ',' !in EntryText(e)
    ensures EntryOf(Strip(EntryText(e))) == Some(e)
  {
    var t := EntryText(e);
    LowerIsLower(e.name);
    if e.amount.Some? {
      var f := FormatCents(e.amount.value);
      FormatCentsHasNoSeparator(e.amount.value);
      FormatIsStripped(e.amount.value);
      FormatParse(e.amount.value);
      assert f != [];
      assert t[0] == e.name[0] && t[|t| - 1] == f[|f| - 1];
      assert IsStripped(t);
      assert t[..|e.name|] == e.name && t[|e.name|] == ':';
      assert IndexOf(t, ':') == |e.name|;
      assert t[|e.name| + 1..] == f;
    } else {
      assert IndexOf(t, ':') == -1;
    }
  }

  lemma {:induction false} EntriesRoundTrip(es: seq<SharedSplit>)
    requires forall k :: 0 <= k < |es| ==> Writable(es[k])
    ensures EntriesOf(StrippedPieces(EntryTexts(es))) == es
  {
    if es != [] {
      var front := es[..|es| - 1];
      var last := es[|es| - 1];
      assert es == front + [last];
      EntriesRoundTrip(front);
      EntryRoundTrip(last);
      var ts := EntryTexts(es);
      assert ts == EntryTexts(front) + [EntryText(last)];
      assert ts[..|ts| - 1] == EntryTexts(front);
      var ps := StrippedPieces(ts);
      assert ps == StrippedPieces(EntryTexts(front)) + [Strip(EntryText(last))];
      assert ps[..|ps| - 1] == StrippedPieces(EntryTexts(front));
      assert EntriesOf(ps) == EntriesOf(ps[..|ps| - 1]) + [last];
    }
  }

  /** The parser inverts the writer: a list of writable participants,
      typed out, is parsed back as the same list. */
  lemma SharedEntriesRoundTrip(es: seq<SharedSplit>)
    requires forall k :: 0 <= k < |es| ==> Writable(es[k])
    ensures SharedEntries(EntriesText(es)) == es
  {
    if es != [] {
      var ts := EntryTexts(es);
      forall k | 0 <= k < |ts|
        ensures ',' !in ts[k]
      {
        EntryTextAt(es, k);
        EntryRoundTrip(es[k]);
      }
      SplitJoin(ts, ',');
      EntryTextAt(es, 0);
      assert EntriesText(es) != [] by {
        assert |JoinWith(ts, ',')| >= |ts[0]|;
      }
      EntriesRoundTrip(es);
    }
  }

  lemma {:induction false} EntryTextAt(es: seq<SharedSplit>, k: int)
    requires 0 <= k < |es|
    ensures EntryTexts(es)[k] == EntryText(es[k])
  {
    if k < |es| - 1 {
      EntryTextAt(es[..|es| - 1], k);
    }
  }
}
