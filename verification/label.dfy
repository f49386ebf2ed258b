/**
 * The day label of a statistics record: the one-based month and the day of
 * the month in decimal, joined by a hyphen, without zero padding ("3-7",
 * "12-25"), even though the code comment beside it calls the format MM-DD.
 */
module DateLabel {
  import opened Wrappers
  import opened Decimal
  import opened Calendar

  datatype MonthDay = MonthDay(month: nat, day: nat)

  /** `${m}-${d}` for naturals `m` and `d`. */
  function FormatLabel(md: MonthDay): string {
    NatToString(md.month) + "-" + NatToString(md.day)
  }

  /** The label of a date: `${getMonth() + 1}-${getDate()}`. */
  function Label(d: Date): string
    requires ValidDate(d)
  {
    FormatLabel(MonthDay(d.month + 1, d.day))
  }

  /** The label of a valid date parses back to its one-based month and its day. */
  lemma LabelRoundTrip(d: Date)
    requires ValidDate(d)
    ensures ParseLabel(Label(d)) == Some(MonthDay(d.month + 1, d.day))
  {
    ParseFormatted(MonthDay(d.month + 1, d.day));
  }

  /** Position of the first occurrence of `c` in `s`. */
  function IndexOf(s: string, c: char): (r: Option<nat>)
    ensures r.Some? ==> r.value < |s| && s[r.value] == c && c !in s[..r.value]
    ensures r.None? ==> c !in s
  {
    if |s| == 0 then None
    else if s[0] == c then Some(0)
    else match IndexOf(s[1..], c)
      case None => None
      case Some(i) =>
        assert s[..i + 1] == [s[0]] + s[1..][..i];
        Some(i + 1)
  }

  /** Reads a label back: two canonical decimal numbers split at the first hyphen. */
  function ParseLabel(s: string): Option<MonthDay> {
    match IndexOf(s, '-')
    case None => None
    case Some(i) =>
      var m, d := s[..i], s[i + 1..];
      if Canonical(m) && Canonical(d) then Some(MonthDay(ParseDigits(m), ParseDigits(d)))
      else None
  }

  /** Formatting and then parsing gives back the month and day. */
  lemma ParseFormatted(md: MonthDay)
    ensures ParseLabel(FormatLabel(md)) == Some(md)
  {
    var m, d := NatToString(md.month), NatToString(md.day);
    var s := FormatLabel(md);
    assert s[|m|] == '-';
    var r := IndexOf(s, '-');
    assert r.Some?;
    assert r.value == |m| by {
      assert forall k :: 0 <= k < |m| ==> s[k] == m[k];
    }
    assert s[..|m|] == m;
    assert s[|m| + 1..] == d;
    ParsePrinted(md.month);
    ParsePrinted(md.day);
  }

  /** Only formatted labels parse: a string that parses is the label of what it parses to. */
  lemma FormattedParsed(s: string, md: MonthDay)
    requires ParseLabel(s) == Some(md)
    ensures FormatLabel(md) == s
  {
    var i := IndexOf(s, '-').value;
    var m, d := s[..i], s[i + 1..];
    PrintParsed(m);
    PrintParsed(d);
    assert s == m + "-" + d;
  }

  /** Labels of valid dates name their date's month and day: the month part is
      1..12 and the day part a day of that month. */
  lemma LabelNamesValidDay(d: Date)
    requires ValidDate(d)
    ensures ParseLabel(Label(d)).Some?
    ensures var md := ParseLabel(Label(d)).value;
      1 <= md.month <= 12 && 1 <= md.day <= DaysInMonth(d.year, md.month - 1)
  {
    LabelRoundTrip(d);
  }

  /** Two valid dates share a label exactly when they share month and day. */
  lemma LabelIdentifiesMonthDay(a: Date, b: Date)
    requires ValidDate(a) && ValidDate(b)
    ensures Label(a) == Label(b) <==> (a.month == b.month && a.day == b.day)
  {
    LabelRoundTrip(a);
    LabelRoundTrip(b);
  }

  /** The label is not zero padded: 7 March prints as "3-7", not "03-07". */
  lemma NoZeroPadding()
    ensures Label(Date(2026, 2, 7)) == "3-7"
    ensures Label(Date(2025, 11, 25)) == "12-25"
  {
  }
}
