/**
 * The controller's identifier allocators, `generarId` and
 * `generarDetalleId`. Which row the database reports as the latest one is
 * an input here: `lastSale` is that row's `idVenta`, `lastDetail` the whole
 * detail row.
 */
module Identifiers {
  import opened Wrappers
  import opened PhpStrings
  import opened Schema

  /** The number an identifier carries after its two-letter prefix, read the way `intval(substr($id, 2))` reads it. */
  function Suffix(id: string): int {
    IntVal(Substr(id, 2))
  }

  /** Prefix, then the number zero-padded to at least four characters. */
  function Format(prefix: string, n: int): string {
    prefix + PadLeft(IntToString(n), 4, '0')
  }

  /** `generarId`: the next sale identifier after the latest one. */
  function NextSaleId(lastSale: Option<string>): (id: string)
    ensures lastSale.None? ==> id == "VT0001"
    ensures |id| >= 6 && id[..2] == "VT"
  {
    match lastSale
    case None => "VT0001"
    case Some(last) => Format("VT", Suffix(last) + 1)
  }

  /**
   * `generarDetalleId($i)`: the identifier of the `i`-th detail row of a
   * new sale. The number is taken from the latest detail row's `idventa`
   * field, which holds the owning sale's identifier, not from its own
   * `idDetalleVenta`.
   */
  function NextDetailId(lastDetail: Option<DetailRow>, i: nat): (id: string)
    ensures lastDetail.None? ==> id == "DV0001"
    ensures |id| >= 6 && id[..2] == "DV"
  {
    match lastDetail
    case None => "DV0001"
    case Some(row) => Format("DV", Suffix(row.saleId) + 1 + i)
  }

  // ---------------------------------------------------------------------
  // Lemmas
  // ---------------------------------------------------------------------

  /** What a formatted identifier looks like: prefix, zero fill, then the decimal text, never cut short. */
  lemma FormatShape(prefix: string, n: int)
    ensures var id := Format(prefix, n);
      && id[..|prefix|] == prefix
      && var digits := IntToString(n);
      && |id| == |prefix| + (if |digits| >= 4 then |digits| else 4)
      && id[|id| - |digits|..] == digits
      && forall k :: |prefix| <= k < |id| - |digits| ==> id[k] == '0'
  {
    var id := Format(prefix, n);
    var p := PadLeft(IntToString(n), 4, '0');
    PadLeftShape(IntToString(n), 4, '0');
    assert id[|prefix|..] == p;
    forall k | |prefix| <= k < |id| - |IntToString(n)|
      ensures id[k] == '0'
    {
      assert id[k] == p[k - |prefix|];
    }
  }

  /** Reading back a formatted identifier with a non-negative number gives that number. */
  lemma SuffixOfFormat(prefix: string, n: int)
    requires |prefix| == 2 && n >= 0
    ensures Suffix(Format(prefix, n)) == n
  {
    var p := PadLeft(IntToString(n), 4, '0');
    assert Substr(prefix + p, 2) == p;
    PadRoundTrip(n, 4);
  }

  /**
   * `generarId` counts on from the latest sale: the new identifier starts
   * with VT, carries the latest number plus one in at least four
   * zero-padded digits, and reads back as that number.
   */
  lemma NextSaleIdIncrements(last: string)
    requires Suffix(last) + 1 >= 0
    ensures NextSaleId(Some(last))[..2] == "VT"
    ensures NextSaleId(Some(last))[2..] == PadLeft(NatToString(Suffix(last) + 1), 4, '0')
    ensures AllDigits(NextSaleId(Some(last))[2..])
    ensures DigitsValue(NextSaleId(Some(last))[2..]) == Suffix(last) + 1
    ensures Suffix(NextSaleId(Some(last))) == Suffix(last) + 1
  {
    var n: nat := Suffix(last) + 1;
    var p := PadLeft(NatToString(n), 4, '0');
    assert NextSaleId(Some(last)) == "VT" + p;
    assert ("VT" + p)[2..] == p;
    NatToStringValue(n);
    ZeroPaddedValue(NatToString(n), 4);
    SuffixOfFormat("VT", n);
  }

  /** Two different numbers never format to the same identifier. */
  lemma FormatInjective(prefix: string, m: int, n: int)
    requires Format(prefix, m) == Format(prefix, n)
    ensures m == n
  {
    var a, b := Format(prefix, m), Format(prefix, n);
    assert a[|prefix|..] == PadLeft(IntToString(m), 4, '0');
    assert b[|prefix|..] == PadLeft(IntToString(n), 4, '0');
    IntToStringInjective(m, n);
    IntToStringInjective(n, m);
    PadLeftInjective(IntToString(m), IntToString(n), 4);
  }

  lemma NextDetailIdFormat(row: DetailRow, i: nat)
    ensures NextDetailId(Some(row), i) == Format("DV", Suffix(row.saleId) + 1 + i)
  {
  }

  lemma FormatDistinct(prefix: string, m: int, n: int)
    requires m != n
    ensures Format(prefix, m) != Format(prefix, n)
  {
    if Format(prefix, m) == Format(prefix, n) {
      FormatInjective(prefix, m, n);
    }
  }

  /**
   * Within one sale, the detail rows at different positions get different
   * identifiers, as long as some detail row already exists.
   */
  lemma DetailIdsDistinct(row: DetailRow, i: nat, j: nat)
    requires i != j
    ensures NextDetailId(Some(row), i) != NextDetailId(Some(row), j)
  {
    var n := Suffix(row.saleId) + 1;
    NextDetailIdFormat(row, i);
    NextDetailIdFormat(row, j);
    FormatDistinct("DV", n + i, n + j);
  }

  /** The first `n` detail identifiers after an existing row are pairwise distinct. */
  lemma DetailIdsPairwiseDistinct(row: DetailRow, n: nat)
    ensures forall i, j :: 0 <= i < j < n ==> NextDetailId(Some(row), i) != NextDetailId(Some(row), j)
  {
    forall i, j | 0 <= i < j < n
      ensures NextDetailId(Some(row), i) != NextDetailId(Some(row), j)
    {
      DetailIdsDistinct(row, i, j);
    }
  }

  /** The `i`-th detail identifier reads back as the latest row's sale number plus one plus `i`. */
  lemma NextDetailIdOffset(row: DetailRow, i: nat)
    requires Suffix(row.saleId) + 1 >= 0
    ensures Suffix(NextDetailId(Some(row), i)) == Suffix(row.saleId) + 1 + i
  {
    SuffixOfFormat("DV", Suffix(row.saleId) + 1 + i);
  }

  /**
   * The detail identifier depends on the latest detail row only through
   * its sale reference: its own `idDetalleVenta` plays no part.
   */
  lemma NextDetailIdIgnoresOwnId(a: DetailRow, b: DetailRow, i: nat)
    requires a.saleId == b.saleId
    ensures NextDetailId(Some(a), i) == NextDetailId(Some(b), i)
  {
  }

  /**
   * A concrete case of the above: after a sale VT0002 whose detail rows
   * reached DV0005, the next sale's first detail row is again DV0003.
   */
  lemma DetailIdReusesNumber()
    ensures NextDetailId(Some(DetailRow("DV0005", 1, 1.0, "PR0001", "VT0002")), 0) == "DV0003"
  {
    assert DigitChar(2) == '2' && DigitChar(3) == '3';
    SuffixOfOneDigit("VT", 2);
    assert "VT" + "000" + ['2'] == "VT0002";
    FormatOneDigit("DV", 3);
    assert "DV" + "000" + ['3'] == "DV0003";
  }

  /** A one-digit number formats as three zeros and the digit. */
  lemma FormatOneDigit(prefix: string, k: nat)
    requires k < 10
    ensures Format(prefix, k) == prefix + "000" + [DigitChar(k)]
  {
    assert IntToString(k) == [DigitChar(k)];
    assert Repeat('0', 3) == "000";
  }

  /** An identifier such as VT0001 reads back as its one digit. */
  lemma SuffixOfOneDigit(prefix: string, k: nat)
    requires |prefix| == 2 && k < 10
    ensures Suffix(prefix + "000" + [DigitChar(k)]) == k
  {
    FormatOneDigit(prefix, k);
    SuffixOfFormat(prefix, k);
  }

  /** With an empty detail table every position gets DV0001: the identifiers of one sale collide. */
  lemma FirstDetailIdsCollide(i: nat, j: nat)
    ensures NextDetailId(None, i) == NextDetailId(None, j) == "DV0001"
  {
  }
}
