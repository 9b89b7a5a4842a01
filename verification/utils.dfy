/**
 * `src/lib/utils.ts`: the single-line GST split and the two date formatters,
 * the latter taking the calendar fields a `Date` would report.
 */
module Utils {
  import opened Text
  import opened Types

  /** `calculateGST(price, quantity, gstRate, isSameState)`. */
  function CalculateGst(price: real, quantity: real, gstRate: real, isSameState: bool): (r: Totals)
    ensures r.subtotal == price * quantity
    ensures r.cgst + r.sgst + r.igst == r.subtotal * gstRate / 100.0
    ensures r.total == r.subtotal + r.cgst + r.sgst + r.igst
    ensures isSameState ==> r.cgst == r.sgst && r.igst == 0.0
    ensures !isSameState ==> r.cgst == 0.0 && r.sgst == 0.0
  {
    var subtotal := price * quantity;
    var gstAmount := (subtotal * gstRate) / 100.0;
    if isSameState then Totals(subtotal, gstAmount / 2.0, gstAmount / 2.0, 0.0, subtotal + gstAmount)
    else Totals(subtotal, 0.0, 0.0, gstAmount, subtotal + gstAmount)
  }

  /** `calculateGST` called without its last argument: the same-state split. */
  function CalculateGstDefault(price: real, quantity: real, gstRate: real): (r: Totals)
    ensures r.subtotal == price * quantity
    ensures r.cgst == r.sgst && r.igst == 0.0
    ensures r.cgst + r.sgst == price * quantity * gstRate / 100.0
    ensures r.total == r.subtotal + r.cgst + r.sgst + r.igst
  {
    CalculateGst(price, quantity, gstRate, true)
  }

  /** The two branches disagree only in how the same tax is split. */
  lemma GstBranchesAgree(price: real, quantity: real, gstRate: real)
    ensures CalculateGst(price, quantity, gstRate, true).total == CalculateGst(price, quantity, gstRate, false).total
    ensures CalculateGst(price, quantity, gstRate, true).cgst * 2.0 == CalculateGst(price, quantity, gstRate, false).igst
  {
  }

  const MonthNames: seq<string> :=
    ["Jan", "Feb", "Mar", "Apr", "May", "Jun", "Jul", "Aug", "Sep", "Oct", "Nov", "Dec"]

  /** `n.toString().padStart(2, '0')`. */
  function TwoDigits(n: nat): string {
    PadStart(NatToString(n), 2, '0')
  }

  lemma MonthNameLength(month: nat)
    requires month < 12
    ensures |MonthNames[month]| == 3
  {
  }

  /** Below 100 the padded field is exactly two digits and reads back as the number. */
  lemma TwoDigitsRoundTrip(n: nat)
    requires n < 100
    ensures |TwoDigits(n)| == 2 && AllDigits(TwoDigits(n)) && DigitsValue(TwoDigits(n)) == n
  {
    PaddedRoundTrip(n, 2);
  }

  /** `formatDate` for a date whose year, zero-based month and day are given: "DD Mon YYYY". */
  function FormatDate(year: int, month: nat, day: nat): (r: string)
    requires month < 12
    ensures day < 100 ==> |r| == 7 + |IntToString(year)|
    ensures day < 100 ==> |r| >= 7 && r[2] == ' ' && r[3..6] == MonthNames[month] && r[6] == ' '
    ensures day < 100 ==> |r| >= 7 && AllDigits(r[..2]) && DigitsValue(r[..2]) == day
    ensures day < 100 ==> |r| >= 7 && r[7..] == IntToString(year)
  {
    var dd := TwoDigits(day);
    var mon := MonthNames[month];
    var yyyy := IntToString(year);
    var r := dd + " " + mon + " " + yyyy;
    if day < 100 then
      MonthNameLength(month);
      TwoDigitsRoundTrip(day);
      DateParts(dd, mon, yyyy);
      r
    else r
  }

  /** Where the day, the month name and the year sit in "DD Mon YYYY". */
  lemma DateParts(dd: string, mon: string, yyyy: string)
    requires |dd| == 2 && |mon| == 3
    ensures var r := dd + " " + mon + " " + yyyy;
      && |r| == 7 + |yyyy| && r[..2] == dd && r[2] == ' ' && r[3..6] == mon && r[6] == ' ' && r[7..] == yyyy
  {
    var r := dd + " " + mon + " " + yyyy;
    assert r[..2] == dd;
    assert r[3..6] == mon;
    assert r[7..] == yyyy;
  }

  /** "HH:MM" reads back as the hours and the minutes. */
  predicate ReadsAsTime(t: string, hours: nat, minutes: nat) {
    && |t| == 5 && t[2] == ':'
    && AllDigits(t[..2]) && DigitsValue(t[..2]) == hours
    && AllDigits(t[3..]) && DigitsValue(t[3..]) == minutes
  }

  lemma SplitAround(a: string, sep: char, b: string)
    requires |a| == 2
    ensures var t := a + [sep] + b; t[..2] == a && t[2] == sep && t[3..] == b
  {
    var t := a + [sep] + b;
    assert t[..2] == a;
    assert t[3..] == b;
  }

  lemma ConcatSuffix(a: string, b: string)
    ensures (a + b)[|a|..] == b
  {
  }

  /** The "HH:MM" part of `formatDateTime`. */
  function TimeText(hours: nat, minutes: nat): (t: string)
    ensures hours < 100 && minutes < 100 ==> ReadsAsTime(t, hours, minutes)
  {
    var t := TwoDigits(hours) + ":" + TwoDigits(minutes);
    if hours < 100 && minutes < 100 then
      TwoDigitsRoundTrip(hours);
      TwoDigitsRoundTrip(minutes);
      SplitAround(TwoDigits(hours), ':', TwoDigits(minutes));
      t
    else t
  }

  /** `formatDateTime`: "DD Mon YYYY, HH:MM". */
  function FormatDateTime(year: int, month: nat, day: nat, hours: nat, minutes: nat): (r: string)
    requires month < 12
    ensures hours < 100 && minutes < 100 ==> |r| >= 5 && ReadsAsTime(r[|r| - 5..], hours, minutes)
  {
    var head := TwoDigits(day) + " " + MonthNames[month] + " " + IntToString(year) + ", ";
    var t := TimeText(hours, minutes);
    if hours < 100 && minutes < 100 then
      ConcatSuffix(head, t);
      head + t
    else head + t
  }

  /** The date-and-time text is the date text followed by ", HH:MM". */
  lemma FormatDateTimeExtendsFormatDate(year: int, month: nat, day: nat, hours: nat, minutes: nat)
    requires month < 12
    ensures FormatDateTime(year, month, day, hours, minutes) ==
      FormatDate(year, month, day) + ", " + TimeText(hours, minutes)
  {
    var date := TwoDigits(day) + " " + MonthNames[month] + " " + IntToString(year);
    assert FormatDate(year, month, day) == date;
    assert FormatDateTime(year, month, day, hours, minutes) == date + ", " + TimeText(hours, minutes);
  }
}
