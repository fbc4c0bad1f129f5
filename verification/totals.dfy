/**
 * The money side of `store`: a line's subtotal is quantity times price,
 * the sale's principal (`SaldoCapital`) is the sum of the subtotals, IVA is
 * 14% of the principal and the total is principal plus IVA. Amounts are
 * exact reals.
 */
module Totals {
  import opened Validation

  const TaxRate: real := 0.14

  function LineSubtotal(l: Line): (r: real)
    ensures l.quantity >= 0 && l.price >= 0.0 ==> r >= 0.0
  {
    l.quantity as real * l.price
  }

  /** Sum of the line subtotals, accumulated in line order as the loop does. */
  function Principal(lines: seq<Line>): (p: real)
    ensures (forall i :: 0 <= i < |lines| ==> lines[i].quantity >= 0 && lines[i].price >= 0.0) ==> p >= 0.0
  {
    if |lines| == 0 then 0.0 else LineSubtotal(lines[0]) + Principal(lines[1..])
  }

  /** IVA at 14%: for a positive principal, positive and less than the principal. */
  function Tax(principal: real): (t: real)
    ensures principal > 0.0 ==> 0.0 < t < principal
    ensures principal == 0.0 ==> t == 0.0
  {
    principal * TaxRate
  }

  /** The amount owed: the principal plus its IVA. */
  function Total(principal: real): (t: real)
    ensures t == principal * 1.14
    ensures principal > 0.0 ==> t > principal
  {
    principal + Tax(principal)
  }

  /** What the total adds to the principal is the 14% IVA on it. */
  lemma TotalIsGrossedUp(principal: real)
    ensures Total(principal) - principal == principal * TaxRate
  {
  }

  /**
   * Every validated line is worth at least a cent, so the principal of a
   * sale is at least one cent per line and tax and total are positive.
   */
  lemma {:induction false} PrincipalLowerBound(lines: seq<Line>)
    requires forall i :: 0 <= i < |lines| ==> lines[i].quantity >= 1 && lines[i].price >= MinPrice
    ensures Principal(lines) >= MinPrice * |lines| as real
  {
    if |lines| > 0 {
      var l := lines[0];
      assert LineSubtotal(l) >= l.price by {
        assert l.quantity as real >= 1.0;
      }
      PrincipalLowerBound(lines[1..]);
    }
  }
}
