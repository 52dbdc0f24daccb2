/**
 * The payment-terms policy of the invoice preview: how many days a terms string
 * adds to the invoice date, the label shown beside "Terms:", and the footer
 * sentence saying when payment is due. Terms stay a free string, because the
 * code falls back to a default for any string it does not recognise.
 */
module PaymentTerms {
  import opened Wrappers
  import opened Text

  /** JavaScript truthiness of `customDays?: number`: both undefined and 0 are falsy. */
  predicate Truthy(customDays: Option<int>) {
    customDays.Some? && customDays.value != 0
  }

  /** The fixed tiers of the terms selector other than "custom". */
  predicate IsNetTier(dueTerms: string) {
    dueTerms == "net_15" || dueTerms == "net_30" || dueTerms == "net_60"
  }

  /** The number of days `calculateDueDate` passes to `setDate` on top of the invoice day. */
  function TermOffset(dueTerms: string, customDays: Option<int>): int {
    if dueTerms == "due_on_receipt" then 0
    else if dueTerms == "net_15" then 15
    else if dueTerms == "net_30" then 30
    else if dueTerms == "net_60" then 60
    else if dueTerms == "custom" && Truthy(customDays) then customDays.value
    else 0
  }

  /** `getPaymentTermsLabel`. */
  function PaymentTermsLabel(dueTerms: string, customDays: Option<int>): string {
    if dueTerms == "due_on_receipt" then "Due on Receipt"
    else if dueTerms == "net_15" then "Net 15"
    else if dueTerms == "net_30" then "Net 30"
    else if dueTerms == "net_60" then "Net 60"
    else if dueTerms == "custom" then
      (if Truthy(customDays) then "Net " + IntToString(customDays.value) else "Custom")
    else "Due on Receipt"
  }

  /** The day count in the footer: the custom days when set, else the terms without their first "net_". */
  function FooterDays(dueTerms: string, customDays: Option<int>): string {
    if dueTerms == "custom" && Truthy(customDays) then IntToString(customDays.value)
    else ReplaceFirst(dueTerms, "net_", "")
  }

  /** The clause that follows "Payment is" in the footer. */
  function FooterClause(dueTerms: string, customDays: Option<int>): string {
    if dueTerms == "due_on_receipt" then "due upon receipt of this invoice"
    else "due within " + FooterDays(dueTerms, customDays) + " days of invoice date"
  }

  lemma TierNumbers()
    ensures IntToString(15) == "15" && IntToString(30) == "30" && IntToString(60) == "60"
  {
    assert NatToString(1) == "1" && NatToString(3) == "3" && NatToString(6) == "6";
  }

  /**
   * Only the four fixed tiers and "custom" with non-zero days move the due date; an
   * unset or zero custom length and every unrecognised string add nothing.
   */
  lemma OffsetPolicy(dueTerms: string, customDays: Option<int>)
    ensures TermOffset(dueTerms, customDays) != 0 <==>
              IsNetTier(dueTerms) || (dueTerms == "custom" && Truthy(customDays))
    ensures dueTerms == "net_15" ==> TermOffset(dueTerms, customDays) == 15
    ensures dueTerms == "net_30" ==> TermOffset(dueTerms, customDays) == 30
    ensures dueTerms == "net_60" ==> TermOffset(dueTerms, customDays) == 60
    ensures dueTerms == "custom" && Truthy(customDays) ==> TermOffset(dueTerms, customDays) == customDays.value
  {
  }

  /** Whenever the due date moves, the label names the same number of days: "Net N". */
  lemma LabelAgreesWithOffset(dueTerms: string, customDays: Option<int>)
    requires TermOffset(dueTerms, customDays) != 0
    ensures PaymentTermsLabel(dueTerms, customDays) == "Net " + IntToString(TermOffset(dueTerms, customDays))
  {
    TierNumbers();
  }

  /**
   * When the due date does not move the label is "Due on Receipt" or "Custom", and it is
   * "Custom" exactly when "custom" was chosen without a non-zero length.
   */
  lemma LabelWithoutOffset(dueTerms: string, customDays: Option<int>)
    ensures TermOffset(dueTerms, customDays) == 0 ==>
              PaymentTermsLabel(dueTerms, customDays) == "Due on Receipt" ||
              PaymentTermsLabel(dueTerms, customDays) == "Custom"
    ensures PaymentTermsLabel(dueTerms, customDays) == "Custom" <==>
              dueTerms == "custom" && !Truthy(customDays)
  {
    if dueTerms == "custom" && Truthy(customDays) {
      assert PaymentTermsLabel(dueTerms, customDays)[0] == 'N';
    }
  }

  /** The examples of the terms selector. */
  lemma LabelExamples()
    ensures PaymentTermsLabel("custom", Some(45)) == "Net 45"
    ensures PaymentTermsLabel("custom", None) == "Custom"
    ensures PaymentTermsLabel("custom", Some(0)) == "Custom"
    ensures PaymentTermsLabel("net_90", Some(45)) == "Due on Receipt"
  {
    assert NatToString(4) == "4";
    assert NatToString(45) == "45";
  }

  /** A terms string of the form "net_" + rest shows rest as the day count in the footer. */
  lemma FooterStripsNetPrefix(rest: string, customDays: Option<int>)
    ensures FooterClause("net_" + rest, customDays) == "due within " + rest + " days of invoice date"
  {
    var t := "net_" + rest;
    assert t[0] == 'n';
    assert t != "due_on_receipt" && t != "custom";
    ReplaceLeading("net_", rest, "");
  }

  /**
   * For the fixed tiers and for "custom" with a non-zero length, the footer states the
   * same number of days as the due date adds.
   */
  lemma FooterAgreesWithOffset(dueTerms: string, customDays: Option<int>)
    requires IsNetTier(dueTerms) || (dueTerms == "custom" && Truthy(customDays))
    ensures FooterClause(dueTerms, customDays) ==
              "due within " + IntToString(TermOffset(dueTerms, customDays)) + " days of invoice date"
  {
    TierNumbers();
    if dueTerms == "net_15" {
      FooterStripsNetPrefix("15", customDays);
      assert "net_" + "15" == dueTerms;
    } else if dueTerms == "net_30" {
      FooterStripsNetPrefix("30", customDays);
      assert "net_" + "30" == dueTerms;
    } else if dueTerms == "net_60" {
      FooterStripsNetPrefix("60", customDays);
      assert "net_" + "60" == dueTerms;
    }
  }

  /** "due upon receipt" appears for the exact string "due_on_receipt" and for nothing else. */
  lemma FooterReceiptOnlyForExactTerms(dueTerms: string, customDays: Option<int>)
    ensures FooterClause(dueTerms, customDays) == "due upon receipt of this invoice" <==>
              dueTerms == "due_on_receipt"
  {
    if dueTerms != "due_on_receipt" {
      WithinIsNotUponReceipt(FooterDays(dueTerms, customDays));
    }
  }

  lemma WithinIsNotUponReceipt(days: string)
    ensures "due within " + days + " days of invoice date" != "due upon receipt of this invoice"
  {
    var c := "due within " + days + " days of invoice date";
    assert c[4] == 'w';
  }

  /**
   * Where the footer and the due date part ways (1): "custom" without a non-zero
   * length adds no days, yet the footer reads "due within custom days".
   */
  lemma FooterCustomWithoutDays(customDays: Option<int>)
    requires !Truthy(customDays)
    ensures TermOffset("custom", customDays) == 0
    ensures FooterClause("custom", customDays) == "due within " + "custom" + " days of invoice date"
  {
    NoOccurrenceWithoutFirstChar("custom", "net_");
    ReplaceFirstSpec("custom", "net_", "");
  }

  /**
   * Where the footer and the due date part ways (2): a stored terms string such as
   * "net_90" that the selector does not offer adds no days, yet the footer promises 90.
   */
  lemma FooterUnknownNetTerms(customDays: Option<int>)
    ensures TermOffset("net_90", customDays) == 0
    ensures PaymentTermsLabel("net_90", customDays) == "Due on Receipt"
    ensures FooterClause("net_90", customDays) == "due within " + "90" + " days of invoice date"
  {
    FooterStripsNetPrefix("90", customDays);
    assert "net_" + "90" == "net_90";
  }
}
