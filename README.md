# Invoice derivation model

This project models the invoice preview's derivation logic. The preview takes an invoice record: an invoice date, a payment-terms string with an optional custom number of days, and a list of line items. From it the preview computes every value the invoice shows:

- the issued and due dates as `DD/MM/YYYY`;
- the invoice number `00MMYY`;
- the billing period (first to last day of the invoice's month);
- the payment-terms label shown beside "Terms:";
- the line totals, subtotal, tax and total, and whether the tax row is shown;
- the footer clause saying when payment is due.

Modules:

- `Calendar` (calendar.dfy) defines Gregorian dates as `(year, month, day)` triples. It has two ways of moving a date:
  - `StepDays`, the reference: repeated single-day steps.
  - `Rollover` / `AddDays`, which is what `Date.prototype.setDate` does with an out-of-range day of the month.

  The lemmas prove the two agree and that every result is a valid date.
- `JsDates` (js_date.dfy) models the JavaScript `Date` behaviour the preview relies on:
  - the constructor `new Date(y, monthIndex, d)`, including its reading of years 0..99 as 1900..1999;
  - a mutable `JsDate` class with a copy constructor and an in-place `SetDate`.
- `Text` (text.dfy) models the string operations:
  - `String(n)`, `padStart(2, "0")`, `slice(-2)` and a first-occurrence `replace`;
  - parsers used to state round trips.
- `PaymentTerms` (payment_terms.dfy) holds the terms policy: the day offset, the label and the footer clause. Terms stay a free string, so unrecognised values take the fallback branches. `customDays` is an `Option<int>`, and both `None` and `Some(0)` are falsy, as in JavaScript.
- `InvoiceDates` (invoice_dates.dfy) covers the date fields:
  - `formatDate`;
  - `calculateDueDate`, a method that copies the invoice date and moves the copy in place;
  - the invoice number;
  - the billing period.
- `InvoiceTotals` (invoice_totals.dfy) covers the line totals, the `reduce` subtotal, tax, total and the tax-row rule. Amounts are exact reals.
- `Wrappers` (option.dfy) holds `Option`.

## Model

| member | source | states |
|---|---|---|
| InvoiceDates.FormatDate | app/components/preview.tsx:187-192 | `formatDate`: padded day, `/`, padded month, `/`, `String(year)`; its layout, round trip and injectivity are the FormatDate lemmas |
| InvoiceDates.DueDate | app/components/preview.tsx:195-222 | The calendar date `calculateDueDate` returns: the invoice date plus `TermOffset` days with `setDate` rollover; `CalculateDueDate` is proved to produce it |
| InvoiceDates.InvoiceNumber | app/components/preview.tsx:246-250 | `generateInvoiceNumber`: "00", the padded month, then the last two characters of `String(year)` |
| InvoiceDates.PeriodStart | app/components/preview.tsx:254 | `new Date(year, month, 1)`: the first day of the invoice's month |
| InvoiceDates.PeriodEnd | app/components/preview.tsx:255 | `new Date(year, month + 1, 0)`: day 0 of the next month, which rolls back to the month's last day |
| InvoiceDates.InvoicePeriod | app/components/preview.tsx:253-257 | `generateInvoicePeriod`: the two bounds formatted and joined by " - " |
| PaymentTerms.TermOffset | app/components/preview.tsx:202-221 | The number of days `calculateDueDate` adds: 0, 15, 30, 60, the custom days when truthy, else 0 |
| PaymentTerms.PaymentTermsLabel | app/components/preview.tsx:225-243 | `getPaymentTermsLabel`: the label table with the custom branch and the "Due on Receipt" fallback |
| PaymentTerms.FooterDays | app/components/preview.tsx:415-418 | The day count in the footer: the custom days when "custom" has truthy days, else the terms with the first "net_" removed |
| PaymentTerms.FooterClause | app/components/preview.tsx:412-419 | "due upon receipt of this invoice" for "due_on_receipt", else "due within N days of invoice date" |
| InvoiceTotals.LineTotal | app/components/preview.tsx:359 | `item.price * item.quantity` |
| InvoiceTotals.FoldSubtotal | app/components/preview.tsx:260-263 | The `reduce` callback applied left to right from an accumulator |
| InvoiceTotals.Subtotal | app/components/preview.tsx:260-263 | The `reduce` started at 0 |
| InvoiceTotals.Tax | app/components/preview.tsx:265 | `subtotal * (taxRate / 100)` |
| InvoiceTotals.Total | app/components/preview.tsx:266 | `(subtotal + tax) * 1.0` |
| InvoiceTotals.ShowTaxRow | app/components/preview.tsx:371 | The tax row is rendered when `taxRate > 0` |
| Calendar.Rollover | app/components/preview.tsx:206 | What `setDate(dom)` does: an out-of-range day of the month carries into later or earlier months and years; the result is always a valid date |
| Calendar.AddDays | app/components/preview.tsx:205-217 | `d.setDate(d.getDate() + n)` as a calendar value; the result is always a valid date |
| JsDates.MakeFullYear | app/components/preview.tsx:254-255 | `new Date(y, ...)` reads a year 0..99 as 1900 + y and keeps any other year |
| Text.IntToString | app/components/preview.tsx:188-190 | `String(n)` for an integer: a minus sign for negatives, then the decimal digits without leading zeros |
| Text.Pad2 | app/components/preview.tsx:188-189 | `String(n).padStart(2, "0")` |
| Text.SliceLast | app/components/preview.tsx:248 | `s.slice(-k)` for k ≥ 1: the last k characters, or all of s when it is shorter |
| Text.ReplaceFirst | app/components/preview.tsx:418 | `s.replace(p, q)` with a string pattern and a replacement without `$`: only the first occurrence is replaced |
| InvoiceDates.FormatDateLayout | app/components/preview.tsx:187-192 | A formatted date is the two-digit day, `/`, the two-digit month, `/`, then `String(year)`, at fixed positions |
| InvoiceDates.FormatDateRoundTrip | app/components/preview.tsx:187-192 | Parsing a formatted date gives back (day, month, year), and a four-digit year gives a 10-character string |
| InvoiceDates.FormatDateInjective | app/components/preview.tsx:187-192 | Two valid dates format to the same string exactly when they are the same date |
| InvoiceDates.FormatDateFirstOfFebruary | app/components/preview.tsx:187-192 | 1 February 2024 is shown as "01/02/2024" |
| InvoiceDates.FormatDateLeapDay | app/components/preview.tsx:187-192 | 29 February 2024 is shown as "29/02/2024" |
| InvoiceDates.FormatDateFirstOfDecember | app/components/preview.tsx:187-192 | 1 December 2023 is shown as "01/12/2023" |
| InvoiceDates.FormatDateNewYearsEve | app/components/preview.tsx:187-192 | 31 December 2023 is shown as "31/12/2023" |
| InvoiceDates.CalculateDueDate | app/components/preview.tsx:195-222 | Returns a fresh, valid date object and leaves the caller's object untouched; its date is the invoice date plus the terms' offset with `setDate` rollover |
| InvoiceDates.DueDatePolicy | app/components/preview.tsx:202-218 | The due date is valid. It is exactly 15, 30 or 60 single-day steps after the invoice date for the net tiers, and the custom number of steps for a truthy custom length. It is never earlier than the invoice date for a non-negative offset |
| InvoiceDates.DueDateFallback | app/components/preview.tsx:202-221 | "due_on_receipt", "custom" with no or zero days, and any unrecognised string return the invoice date unchanged |
| InvoiceDates.DueDateNetExamples | app/components/preview.tsx:205-210 | 20 Jan 2024 + net 15 is 4 Feb 2024; 31 Jan 2024 + net 30 is 1 Mar 2024 |
| InvoiceDates.DueDateYearEndExample | app/components/preview.tsx:211-213 | 15 Dec 2023 + net 60 is 13 Feb 2024 |
| InvoiceDates.DueDateCustomExamples | app/components/preview.tsx:214-218 | Custom 45 days from 1 Jan 2024 is 15 Feb 2024; custom with no days leaves 1 Jan 2024 |
| InvoiceDates.InvoiceNumberShape | app/components/preview.tsx:246-250 | From year 10 on, the number is "00", the padded month and the year's last two digits: six characters, all digits |
| InvoiceDates.InvoiceNumberShortYear | app/components/preview.tsx:246-250 | For years 0..9 the year string has one character, so the number has only five characters |
| InvoiceDates.InvoiceNumberCollision | app/components/preview.tsx:246-250 | From year 10 on, two invoices get the same number exactly when the months agree and the years agree modulo 100, whatever the day |
| InvoiceDates.InvoiceNumberExamples | app/components/preview.tsx:246-250 | January 2024 gives "000124" and December 2025 gives "001225" |
| InvoiceDates.InvoicePeriodBounds | app/components/preview.tsx:253-257 | The period runs from day 1 to the month's last day in the year `new Date` reads. February ends on the 29th exactly in leap years, and December ends in the same year |
| InvoiceDates.InvoicePeriodContainsDate | app/components/preview.tsx:253-257 | Outside years 0..99 the period lies in the invoice's own year and contains the invoice date |
| InvoiceDates.InvoicePeriodLeapExample | app/components/preview.tsx:253-257 | The period of February 2024 is "01/02/2024 - 29/02/2024" |
| InvoiceDates.InvoicePeriodDecemberExample | app/components/preview.tsx:253-257 | The period of December 2023 is "01/12/2023 - 31/12/2023" |
| Calendar.AddDaysIsStepping | app/components/preview.tsx:205-217 | `setDate(getDate() + n)` lands exactly n single-day steps away, across month ends, year ends and leap days |
| Calendar.RolloverIsStepping | app/components/preview.tsx:205-217 | Rolling an out-of-range day of the month into month m of year y is taking dom - 1 steps from the first of that month |
| Calendar.AddDaysOrder | app/components/preview.tsx:205-217 | Adding 0 days leaves the date. Adding n > 0 days moves strictly later, n < 0 strictly earlier, and n >= 0 never earlier |
| Calendar.AddDaysAdd | app/components/preview.tsx:205-217 | Adding a days and then b days is adding a + b days |
| Calendar.AddDaysInverse | app/components/preview.tsx:205-217 | Adding n days and then -n days gives back the date |
| Calendar.AddDaysLeapExamples | app/components/preview.tsx:208-210 | 31 Jan + 30 days is 1 Mar in 2024 and 2 Mar in 2023 |
| Calendar.AddDaysCenturyExamples | app/components/preview.tsx:205-217 | 28 Feb + 1 day is 1 Mar in 2100 and 29 Feb in 2000 |
| Calendar.AddDaysRolloverExamples | app/components/preview.tsx:205-207 | 20 Jan 2024 + 15 is 4 Feb 2024; 20 Dec 2023 + 15 is 4 Jan 2024 |
| JsDates.MakeDate | app/components/preview.tsx:254-255 | `new Date(year, monthIndex, day)` always denotes a valid calendar date |
| JsDates.JsDate.Copy | app/components/preview.tsx:200 | `new Date(invoiceDate)` is a new object denoting the same date |
| JsDates.JsDate.SetDate | app/components/preview.tsx:206 | `setDate(dom)` keeps the object valid and makes it denote the rollover of dom into its old month and year |
| Text.Pad2RoundTrip | app/components/preview.tsx:188-189 | Padding a number below 100 gives two digits that read back as the number |
| Text.ParseIntToString | app/components/preview.tsx:190-191 | `String(year)` reads back as the year |
| Text.LastTwoDigits | app/components/preview.tsx:248 | For a number of at least two digits, the last two characters of its string are its value modulo 100, padded |
| Text.ReplaceFirstSpec | app/components/preview.tsx:418 | `replace(p, q)` with a string pattern replaces the first occurrence only, and leaves the string alone when there is none |
| PaymentTerms.OffsetPolicy | app/components/preview.tsx:202-221 | The offset is non-zero exactly for the net tiers and for "custom" with truthy days. It is 15/30/60 for the tiers and the custom value for custom |
| PaymentTerms.LabelAgreesWithOffset | app/components/preview.tsx:229-242 | Whenever the due date moves, the label is "Net " followed by the number of days it moves |
| PaymentTerms.LabelWithoutOffset | app/components/preview.tsx:229-242 | When the due date does not move, the label is "Due on Receipt" or "Custom". "Custom" appears exactly for "custom" without truthy days |
| PaymentTerms.LabelExamples | app/components/preview.tsx:238-241 | custom 45 gives "Net 45"; custom with no days or 0 days gives "Custom"; "net_90" gives "Due on Receipt" |
| PaymentTerms.FooterStripsNetPrefix | app/components/preview.tsx:412-419 | For terms "net_" + rest the footer reads "due within rest days of invoice date" |
| PaymentTerms.FooterAgreesWithOffset | app/components/preview.tsx:412-419 | For the net tiers and for custom with truthy days, the footer names the same number of days the due date adds |
| PaymentTerms.FooterReceiptOnlyForExactTerms | app/components/preview.tsx:412-414 | "due upon receipt of this invoice" appears for the exact string "due_on_receipt" and for nothing else |
| PaymentTerms.FooterCustomWithoutDays | app/components/preview.tsx:412-419 | "custom" without truthy days adds no days, yet the footer reads "due within custom days of invoice date" |
| PaymentTerms.FooterUnknownNetTerms | app/components/preview.tsx:412-419 | "net_90" adds no days and is labelled "Due on Receipt", yet the footer promises 90 days |
| InvoiceTotals.LineTotals | app/components/preview.tsx:351-362 | One line total per item, in item order, each being price times quantity |
| InvoiceTotals.FoldSubtotalIsSum | app/components/preview.tsx:260-263 | The reduce started at acc yields acc plus the sum of the line totals |
| InvoiceTotals.SubtotalIsSumOfLineTotals | app/components/preview.tsx:260-263 | The subtotal is the sum of the line totals, and 0 for no items |
| InvoiceTotals.SubtotalAppend | app/components/preview.tsx:260-263 | Splitting the items splits the subtotal into the two parts' subtotals |
| InvoiceTotals.SubtotalPermutation | app/components/preview.tsx:260-263 | Any reordering of the items has the same subtotal |
| InvoiceTotals.SubtotalNonNegative | app/components/preview.tsx:260-263 | With no negative price or quantity the subtotal is not negative |
| InvoiceTotals.TotalIsSubtotalPlusTax | app/components/preview.tsx:265-266 | The total is the subtotal plus the tax, i.e. the subtotal scaled by 1 + rate/100; a zero rate gives no tax and total = subtotal |
| InvoiceTotals.TaxRowShownIffTaxCharged | app/components/preview.tsx:371 | On a positive subtotal the tax row is shown exactly when the tax is positive |
| InvoiceTotals.PreviewTotals | app/components/preview.tsx:264-266 | At the preview's rate of 0: no tax row, no tax, and the total equals the subtotal and the sum of the line totals |
| InvoiceTotals.TotalsExample | app/components/preview.tsx:260-266 | Items 2 x 100 and 1 x 50 give line totals 200 and 50, subtotal 250 and total 250 |

## Left out

- The PDF rendering (style sheet, document and page layout, the viewer's dynamic import and readiness flag) is UI built on a foreign library.
- `toFixed(2)` formatting of amounts is left out. Amounts are exact reals, so the floating-point rounding of `price * quantity` and of the running sum is not modelled.
- The fixed footer text around the due clause ("Amount due: …", "Thank you for your business! Payment is", the final period) and the tax row's label are plain text and are not modelled. `FooterClause` is the part that varies.
- Time zones, time of day and the "today" default of a new invoice are left out. Dates are pure calendar triples. JavaScript's `Date` range limit (about ±275,000 years) is not modelled; years are unbounded.
- A `customDays` that is NaN or fractional is left out. It is an `Option<int>`, so only absence and 0 are falsy. The 1..365 bound belongs to the form widget, not to this code, and is not assumed.
- React context providers, local-storage persistence, the form widgets and the item keys' random generation are outside this model.
- The invoice number follows the code, `String(year).slice(-2)`, not "year modulo 100, zero-padded". The two differ for every year below 10. For years 0..9 the number is five characters long, which `InvoiceDates.InvoiceNumberShortYear` states. For negative years the sign is kept, so year -5 gives "0001-5".
- InvoiceNumberShape: states the shape for years from 10 on. For negative years, `String(year)` starts with '-'; `InvoiceDates.InvoiceNumber` models that case, but no lemma describes it.
- PaymentTerms.PaymentTermsLabel: `IntToString` writes every digit of the custom days. JavaScript's `String(n)` switches to exponent form from 1e21 on ("Net 1e+21"), and numbers above 2^53 are not exact integers. These large-number cases are not modelled. `PaymentTerms.FooterDays` has the same limitation.
- Text.ReplaceFirst: inserts q literally. JavaScript's `replace` expands `$&`, `$$`, `` $` `` and `$'` in the replacement, so a q containing `$` is not modelled. The preview only replaces with the empty string.
- Negative quantities or prices are not rejected, because the code accepts them. The non-negativity of the subtotal is stated only under that assumption.
- `InvoiceDates.ParseDate` and the parsers in `Text` have no counterpart in the code. They exist only to state round trips.
