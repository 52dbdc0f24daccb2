/**
 * The money side of the invoice preview: each row's line total, the subtotal as a
 * left fold over the items, tax at a percentage rate, the grand total, and whether
 * the tax row is shown. Amounts are exact reals.
 */
module InvoiceTotals {

  /** One billable row; `key` only identifies the row in the form and takes no part in any sum. */
  datatype InvoiceItem = InvoiceItem(description: string, quantity: real, price: real, key: string)

  /** The rate the preview uses: the tax row is switched off. */
  const TaxRate: real := 0.0

  /** `item.price * item.quantity`, the row's "Line Total". */
  function LineTotal(item: InvoiceItem): real {
    item.price * item.quantity
  }

  /** The line totals in item order. */
  function LineTotals(items: seq<InvoiceItem>): (r: seq<real>)
    ensures |r| == |items|
    ensures forall i :: 0 <= i < |items| ==> r[i] == LineTotal(items[i])
  {
    if items == [] then [] else [LineTotal(items[0])] + LineTotals(items[1..])
  }

  /** The reference sum, accumulated from the right. */
  function Sum(xs: seq<real>): real {
    if xs == [] then 0.0 else xs[0] + Sum(xs[1..])
  }

  /** `items.reduce((acc, item) => acc + item.price * item.quantity, acc)`. */
  function FoldSubtotal(acc: real, items: seq<InvoiceItem>): real
    decreases |items|
  {
    if items == [] then acc else FoldSubtotal(acc + LineTotal(items[0]), items[1..])
  }

  /** The reduce with the initial value 0. */
  function Subtotal(items: seq<InvoiceItem>): real {
    FoldSubtotal(0.0, items)
  }

  /** `subtotal * (taxRate / 100)`. */
  function Tax(subtotal: real, taxRate: real): real {
    subtotal * (taxRate / 100.0)
  }

  /** `(subtotal + tax) * 1.0`. */
  function Total(subtotal: real, taxRate: real): real {
    (subtotal + Tax(subtotal, taxRate)) * 1.0
  }

  /** The tax row is rendered only when `taxRate > 0`. */
  predicate ShowTaxRow(taxRate: real) {
    taxRate > 0.0
  }

  lemma {:induction false} SumAppend(xs: seq<real>, ys: seq<real>)
    ensures Sum(xs + ys) == Sum(xs) + Sum(ys)
  {
    if xs == [] {
      assert xs + ys == ys;
    } else {
      assert (xs + ys)[0] == xs[0];
      assert (xs + ys)[1..] == xs[1..] + ys;
      SumAppend(xs[1..], ys);
    }
  }

  /** The left fold from acc adds acc to the sum of the line totals. */
  lemma {:induction false} FoldSubtotalIsSum(acc: real, items: seq<InvoiceItem>)
    ensures FoldSubtotal(acc, items) == acc + Sum(LineTotals(items))
    decreases |items|
  {
    if items != [] {
      FoldSubtotalIsSum(acc + LineTotal(items[0]), items[1..]);
    }
  }

  /** The subtotal is the sum of the line totals; no items give 0. */
  lemma SubtotalIsSumOfLineTotals(items: seq<InvoiceItem>)
    ensures Subtotal(items) == Sum(LineTotals(items))
    ensures items == [] ==> Subtotal(items) == 0.0
  {
    FoldSubtotalIsSum(0.0, items);
  }

  lemma LineTotalsAppend(a: seq<InvoiceItem>, b: seq<InvoiceItem>)
    ensures LineTotals(a + b) == LineTotals(a) + LineTotals(b)
  {
    var l, r := LineTotals(a + b), LineTotals(a) + LineTotals(b);
    assert |l| == |r|;
    forall i | 0 <= i < |l|
      ensures l[i] == r[i]
    {
      if i < |a| {
        assert (a + b)[i] == a[i];
      } else {
        assert (a + b)[i] == b[i - |a|];
      }
    }
  }

  /** Splitting the items anywhere splits the subtotal; adding an item adds its line total. */
  lemma SubtotalAppend(a: seq<InvoiceItem>, b: seq<InvoiceItem>)
    ensures Subtotal(a + b) == Subtotal(a) + Subtotal(b)
  {
    SubtotalIsSumOfLineTotals(a + b);
    SubtotalIsSumOfLineTotals(a);
    SubtotalIsSumOfLineTotals(b);
    LineTotalsAppend(a, b);
    SumAppend(LineTotals(a), LineTotals(b));
  }

  lemma SubtotalSingle(x: InvoiceItem)
    ensures Subtotal([x]) == LineTotal(x)
  {
    assert [x][1..] == [];
    assert FoldSubtotal(0.0 + LineTotal(x), []) == LineTotal(x);
  }

  /** Taking out the item at j takes its line total out of the subtotal. */
  lemma SubtotalRemoveAt(b: seq<InvoiceItem>, j: int)
    requires 0 <= j < |b|
    ensures Subtotal(b) == LineTotal(b[j]) + Subtotal(b[..j] + b[j + 1..])
  {
    var u, v := b[..j], b[j + 1..];
    assert b == u + [b[j]] + v;
    SubtotalSingle(b[j]);
    SubtotalAppend(u, v);
    SubtotalAppend(u + [b[j]], v);
    SubtotalAppend(u, [b[j]]);
  }

  lemma MultisetRemoveAt(a: seq<InvoiceItem>, b: seq<InvoiceItem>, j: int)
    requires multiset(a) == multiset(b) && a != [] && 0 <= j < |b| && b[j] == a[0]
    ensures multiset(a[1..]) == multiset(b[..j] + b[j + 1..])
  {
    var u, v := b[..j], b[j + 1..];
    assert a == [a[0]] + a[1..];
    assert b == u + [b[j]] + v;
    assert multiset(a[1..]) == multiset(a) - multiset([a[0]]);
    assert multiset(u + v) == multiset(u) + multiset(v);
    assert multiset(u + v) == multiset(b) - multiset([b[j]]);
  }

  /** The order of the items changes their display only: any rearrangement has the same subtotal. */
  lemma {:induction false} SubtotalPermutation(a: seq<InvoiceItem>, b: seq<InvoiceItem>)
    requires multiset(a) == multiset(b)
    ensures Subtotal(a) == Subtotal(b)
    decreases |a|
  {
    if a == [] {
      assert |b| == |multiset(b)| == 0;
    } else {
      assert a[0] in multiset(b);
      var j :| 0 <= j < |b| && b[j] == a[0];
      MultisetRemoveAt(a, b, j);
      SubtotalPermutation(a[1..], b[..j] + b[j + 1..]);
      SubtotalRemoveAt(a, 0);
      assert a[..0] + a[1..] == a[1..];
      SubtotalRemoveAt(b, j);
    }
  }

  /** With no negative quantity or price the subtotal is not negative. */
  lemma {:induction false} SubtotalNonNegative(items: seq<InvoiceItem>)
    requires forall i :: 0 <= i < |items| ==> items[i].quantity >= 0.0 && items[i].price >= 0.0
    ensures Subtotal(items) >= 0.0
  {
    if items != [] {
      var x, tail := items[0], items[1..];
      assert forall i :: 0 <= i < |tail| ==> tail[i] == items[i + 1];
      SubtotalNonNegative(tail);
      assert LineTotal(x) >= 0.0 by {
        assert x.price >= 0.0 && x.quantity >= 0.0;
      }
      SubtotalSingle(x);
      SubtotalAppend([x], tail);
      assert [x] + tail == items;
    }
  }

  /** The total is the subtotal scaled by 1 + rate/100, and it exceeds the subtotal by exactly the tax. */
  lemma TotalIsSubtotalPlusTax(subtotal: real, taxRate: real)
    ensures Total(subtotal, taxRate) == subtotal + Tax(subtotal, taxRate)
    ensures Total(subtotal, taxRate) == subtotal * (1.0 + taxRate / 100.0)
    ensures taxRate == 0.0 ==> Tax(subtotal, taxRate) == 0.0 && Total(subtotal, taxRate) == subtotal
  {
  }

  /** On a positive subtotal, the tax row is shown exactly when tax is charged. */
  lemma TaxRowShownIffTaxCharged(subtotal: real, taxRate: real)
    requires subtotal > 0.0
    ensures ShowTaxRow(taxRate) <==> Tax(subtotal, taxRate) > 0.0
  {
    if taxRate > 0.0 {
      assert subtotal * (taxRate / 100.0) > 0.0;
    } else {
      assert subtotal * (taxRate / 100.0) <= 0.0;
    }
  }

  /** At the preview's rate of 0 there is no tax row, no tax, and the total is the subtotal. */
  lemma PreviewTotals(items: seq<InvoiceItem>)
    ensures !ShowTaxRow(TaxRate)
    ensures Tax(Subtotal(items), TaxRate) == 0.0
    ensures Total(Subtotal(items), TaxRate) == Subtotal(items) == Sum(LineTotals(items))
  {
    SubtotalIsSumOfLineTotals(items);
  }

  /** Two rows, 2 x 100 and 1 x 50: line totals 200 and 50, subtotal and total 250. */
  lemma TotalsExample()
    ensures var items := [InvoiceItem("Design", 2.0, 100.0, "a"), InvoiceItem("Hosting", 1.0, 50.0, "b")];
            LineTotals(items) == [200.0, 50.0] && Subtotal(items) == 250.0 &&
            Total(Subtotal(items), TaxRate) == 250.0
  {
  }
}
