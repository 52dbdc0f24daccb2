/**
 * The date-derived fields of the invoice preview: the issued and due dates as
 * DD/MM/YYYY, the invoice number built from month and year, and the billing
 * period running from the first to the last day of the invoice's month.
 */
module InvoiceDates {
  import opened Wrappers
  import opened Calendar
  import opened Text
  import opened JsDates
  import opened PaymentTerms

  /** `formatDate`: day and month padded to two digits, the year as `String(year)`. */
  function FormatDate(d: Date): string
    requires ValidDate(d)
  {
    Pad2(d.day) + "/" + Pad2(d.month) + "/" + IntToString(d.year)
  }

  /** Reads a DD/MM/Y... string back into (day, month, year); None when the shape is wrong. */
  function ParseDate(s: string): Option<Date> {
    if |s| >= 7 && s[2] == '/' && s[5] == '/' then
      Some(Date(ParseInt(s[6..]), ParseNat(s[3..5]), ParseNat(s[..2])))
    else
      None
  }

  /** The three fields of a formatted date and where they sit. */
  lemma FormatDateLayout(d: Date)
    requires ValidDate(d)
    ensures var s := FormatDate(d);
            |s| == 6 + |IntToString(d.year)| && s[2] == '/' && s[5] == '/' &&
            s[..2] == Pad2(d.day) && s[3..5] == Pad2(d.month) && s[6..] == IntToString(d.year)
  {
    Pad2RoundTrip(d.day);
    Pad2RoundTrip(d.month);
  }

  /** A formatted date reads back as the date, and a four-digit year gives ten characters. */
  lemma FormatDateRoundTrip(d: Date)
    requires ValidDate(d)
    ensures ParseDate(FormatDate(d)) == Some(d)
    ensures 1000 <= d.year < 10000 ==> |FormatDate(d)| == 10
  {
    FormatDateLayout(d);
    Pad2RoundTrip(d.day);
    Pad2RoundTrip(d.month);
    ParseIntToString(d.year);
    if 1000 <= d.year < 10000 {
      NatToStringLength4(d.year);
    }
  }

  /** Distinct dates are printed differently. */
  lemma FormatDateInjective(a: Date, b: Date)
    requires ValidDate(a) && ValidDate(b)
    ensures FormatDate(a) == FormatDate(b) <==> a == b
  {
    if FormatDate(a) == FormatDate(b) {
      FormatDateRoundTrip(a);
      FormatDateRoundTrip(b);
    }
  }

  /** The due date `calculateDueDate` returns, as a calendar date. */
  function DueDate(invoiceDate: Date, dueTerms: string, customDays: Option<int>): Date
    requires ValidDate(invoiceDate)
  {
    AddDays(invoiceDate, TermOffset(dueTerms, customDays))
  }

  /**
   * `calculateDueDate`: copy the invoice date, then move the copy with `setDate` by
   * the number of days the terms call for. The caller's date object is not modified.
   */
  method CalculateDueDate(invoiceDate: JsDate, dueTerms: string, customDays: Option<int>)
    returns (dueDate: JsDate)
    requires invoiceDate.Valid()
    ensures fresh(dueDate) && dueDate.Valid() && unchanged(invoiceDate)
    ensures dueDate.Value() == DueDate(invoiceDate.Value(), dueTerms, customDays)
  {
    dueDate := new JsDate.Copy(invoiceDate);
    if dueTerms == "due_on_receipt" {
      return;
    } else if dueTerms == "net_15" {
      dueDate.SetDate(dueDate.date + 15);
    } else if dueTerms == "net_30" {
      dueDate.SetDate(dueDate.date + 30);
    } else if dueTerms == "net_60" {
      dueDate.SetDate(dueDate.date + 60);
    } else if dueTerms == "custom" {
      if Truthy(customDays) {
        dueDate.SetDate(dueDate.date + customDays.value);
      }
    }
  }

  /**
   * The due date is a valid date exactly TermOffset single-day steps after the invoice
   * date: 0, 15, 30 or 60 days for the fixed tiers, the custom length when it is
   * non-zero, and the invoice date itself otherwise; never earlier for a non-negative term.
   */
  lemma DueDatePolicy(invoiceDate: Date, dueTerms: string, customDays: Option<int>)
    requires ValidDate(invoiceDate)
    ensures var due := DueDate(invoiceDate, dueTerms, customDays);
            ValidDate(due) && due == StepDays(invoiceDate, TermOffset(dueTerms, customDays))
    ensures dueTerms == "net_15" ==> DueDate(invoiceDate, dueTerms, customDays) == StepDays(invoiceDate, 15)
    ensures dueTerms == "net_30" ==> DueDate(invoiceDate, dueTerms, customDays) == StepDays(invoiceDate, 30)
    ensures dueTerms == "net_60" ==> DueDate(invoiceDate, dueTerms, customDays) == StepDays(invoiceDate, 60)
    ensures dueTerms == "custom" && Truthy(customDays) ==>
              DueDate(invoiceDate, dueTerms, customDays) == StepDays(invoiceDate, customDays.value)
    ensures TermOffset(dueTerms, customDays) >= 0 ==>
              !Before(DueDate(invoiceDate, dueTerms, customDays), invoiceDate)
  {
    AddDaysIsStepping(invoiceDate, TermOffset(dueTerms, customDays));
    AddDaysOrder(invoiceDate, TermOffset(dueTerms, customDays));
  }

  /** "due_on_receipt", "custom" without a non-zero length and any unknown string leave the date as it is. */
  lemma DueDateFallback(invoiceDate: Date, dueTerms: string, customDays: Option<int>)
    requires ValidDate(invoiceDate)
    requires !IsNetTier(dueTerms) && !(dueTerms == "custom" && Truthy(customDays))
    ensures DueDate(invoiceDate, dueTerms, customDays) == invoiceDate
  {
    AddDaysOrder(invoiceDate, 0);
  }

  /** Net 15 across a month end, net 30 across a leap February. */
  lemma DueDateNetExamples()
    ensures DueDate(Date(2024, 1, 20), "net_15", None) == Date(2024, 2, 4)
    ensures DueDate(Date(2024, 1, 31), "net_30", None) == Date(2024, 3, 1)
  {
    AddDaysRolloverExamples();
    AddDaysLeapExamples();
  }

  /** Net 60 across a year end. */
  lemma DueDateYearEndExample()
    ensures DueDate(Date(2023, 12, 15), "net_60", None) == Date(2024, 2, 13)
  {
  }

  /** A custom length of 45 days, and "custom" with no length. */
  lemma DueDateCustomExamples()
    ensures DueDate(Date(2024, 1, 1), "custom", Some(45)) == Date(2024, 2, 15)
    ensures DueDate(Date(2024, 1, 1), "custom", None) == Date(2024, 1, 1)
  {
  }

  /** `generateInvoiceNumber`: "00", the padded month, then `String(year).slice(-2)`. */
  function InvoiceNumber(d: Date): string
    requires ValidDate(d)
  {
    "00" + Pad2(d.month) + SliceLast(IntToString(d.year), 2)
  }

  /**
   * From year 10 on, the number is "00", two month digits and the year's last two
   * digits: six characters, all digits.
   */
  lemma InvoiceNumberShape(d: Date)
    requires ValidDate(d) && d.year >= 10
    ensures InvoiceNumber(d) == "00" + Pad2(d.month) + Pad2(d.year % 100)
    ensures |InvoiceNumber(d)| == 6 && AllDigits(InvoiceNumber(d))
  {
    assert InvoiceNumber(d) == "00" + Pad2(d.month) + Pad2(d.year % 100) by {
      assert IntToString(d.year) == NatToString(d.year);
      LastTwoDigits(d.year);
    }
    Pad2RoundTrip(d.month);
    Pad2RoundTrip(d.year % 100);
    AllDigitsJoin3("00", Pad2(d.month), Pad2(d.year % 100));
  }

  /** Years 0..9 have a one-character `String(year)`, so the number is only five characters long. */
  lemma InvoiceNumberShortYear(d: Date)
    requires ValidDate(d) && 0 <= d.year < 10
    ensures InvoiceNumber(d) == "00" + Pad2(d.month) + [Digit(d.year)]
    ensures |InvoiceNumber(d)| == 5
  {
    Pad2RoundTrip(d.month);
  }

  /**
   * Two invoices get the same number exactly when their months agree and their years
   * agree modulo 100: the day never matters, so every invoice of a month collides.
   */
  lemma InvoiceNumberCollision(a: Date, b: Date)
    requires ValidDate(a) && ValidDate(b) && a.year >= 10 && b.year >= 10
    ensures InvoiceNumber(a) == InvoiceNumber(b) <==>
              a.month == b.month && a.year % 100 == b.year % 100
  {
    InvoiceNumberShape(a);
    InvoiceNumberShape(b);
    if InvoiceNumber(a) == InvoiceNumber(b) {
      var s, t := InvoiceNumber(a), InvoiceNumber(b);
      Pad2RoundTrip(a.month);
      Pad2RoundTrip(b.month);
      Pad2RoundTrip(a.year % 100);
      Pad2RoundTrip(b.year % 100);
      assert s[2..4] == Pad2(a.month) && t[2..4] == Pad2(b.month);
      assert s[4..] == Pad2(a.year % 100) && t[4..] == Pad2(b.year % 100);
    }
  }

  lemma InvoiceNumberExamples()
    ensures InvoiceNumber(Date(2024, 1, 5)) == "000124"
    ensures InvoiceNumber(Date(2025, 12, 1)) == "001225"
  {
    InvoiceNumberShape(Date(2024, 1, 5));
    InvoiceNumberShape(Date(2025, 12, 1));
    Pad2Digits(1);
    Pad2Digits(0);
    Pad2Digits(24);
    Pad2Digits(12);
    Pad2Digits(25);
  }

  /** `new Date(year, month, 1)` in `generateInvoicePeriod`. */
  function PeriodStart(d: Date): Date
    requires ValidDate(d)
  {
    MakeDate(d.year, d.month - 1, 1)
  }

  /** `new Date(year, month + 1, 0)`: day 0 of the next month, i.e. the last day of this one. */
  function PeriodEnd(d: Date): Date
    requires ValidDate(d)
  {
    MakeDate(d.year, d.month, 0)
  }

  /** `generateInvoicePeriod`. */
  function InvoicePeriod(d: Date): string
    requires ValidDate(d)
  {
    FormatDate(PeriodStart(d)) + " - " + FormatDate(PeriodEnd(d))
  }

  /**
   * The period runs from day 1 to the last day of the invoice's own month and year
   * (28 or 29 in February by the leap rule; December ends on the 31st of the same year).
   * The year is the one `new Date` reads, which turns years 0..99 into 1900..1999.
   */
  lemma InvoicePeriodBounds(d: Date)
    requires ValidDate(d)
    ensures var y := MakeFullYear(d.year);
            PeriodStart(d) == Date(y, d.month, 1) &&
            PeriodEnd(d) == Date(y, d.month, DaysInMonth(y, d.month))
    ensures d.month == 2 ==> (PeriodEnd(d).day == 29 <==> IsLeapYear(MakeFullYear(d.year)))
    ensures InvoicePeriod(d) ==
              FormatDate(Date(MakeFullYear(d.year), d.month, 1)) + " - " +
              FormatDate(Date(MakeFullYear(d.year), d.month, DaysInMonth(MakeFullYear(d.year), d.month)))
  {
    var y := MakeFullYear(d.year);
    assert (d.month - 1) / 12 == 0 && (d.month - 1) % 12 == d.month - 1;
    if d.month == 12 {
      assert d.month / 12 == 1 && d.month % 12 == 0;
    } else {
      assert d.month / 12 == 0 && d.month % 12 == d.month;
    }
  }

  /** Outside years 0..99 the period is a span of the invoice's month that contains the invoice date. */
  lemma InvoicePeriodContainsDate(d: Date)
    requires ValidDate(d) && !(0 <= d.year <= 99)
    ensures !Before(d, PeriodStart(d)) && !Before(PeriodEnd(d), d)
    ensures PeriodStart(d).year == d.year && PeriodEnd(d).year == d.year
  {
    InvoicePeriodBounds(d);
  }

  lemma FormatDateFirstOfFebruary()
    ensures FormatDate(Date(2024, 2, 1)) == "01/02/2024"
  {
    Pad2Digits(1);
    Pad2Digits(2);
    assert IntToString(2024) == "2024";
  }

  lemma FormatDateLeapDay()
    ensures FormatDate(Date(2024, 2, 29)) == "29/02/2024"
  {
    Pad2Digits(2);
    Pad2Digits(29);
    assert IntToString(2024) == "2024";
  }

  lemma FormatDateFirstOfDecember()
    ensures FormatDate(Date(2023, 12, 1)) == "01/12/2023"
  {
    Pad2Digits(1);
    Pad2Digits(12);
    assert IntToString(2023) == "2023";
  }

  lemma FormatDateNewYearsEve()
    ensures FormatDate(Date(2023, 12, 31)) == "31/12/2023"
  {
    Pad2Digits(12);
    Pad2Digits(31);
    assert IntToString(2023) == "2023";
  }

  /** The leap-year example: February 2024 ends on the 29th. */
  lemma InvoicePeriodLeapExample()
    ensures InvoicePeriod(Date(2024, 2, 10)) == "01/02/2024" + " - " + "29/02/2024"
  {
    InvoicePeriodBounds(Date(2024, 2, 10));
    FormatDateFirstOfFebruary();
    FormatDateLeapDay();
  }

  /** December ends on the 31st of the same year, not in the next one. */
  lemma InvoicePeriodDecemberExample()
    ensures InvoicePeriod(Date(2023, 12, 5)) == "01/12/2023" + " - " + "31/12/2023"
  {
    InvoicePeriodBounds(Date(2023, 12, 5));
    FormatDateFirstOfDecember();
    FormatDateNewYearsEve();
  }
}
