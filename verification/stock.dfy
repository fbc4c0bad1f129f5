/**
 * The stock loop of `store`: lines are taken in order, each re-reads its
 * product's current stock (so earlier lines for the same product have
 * already taken their share), a line asking for more than that stock
 * stops the sale, and otherwise the stock is lowered by the line's
 * quantity.
 */
module Stock {
  import opened Wrappers
  import opened Validation

  /** Every line names a product the stock map knows. */
  predicate Stocked(stock: map<string, int>, lines: seq<Line>) {
    forall i :: 0 <= i < |lines| ==> lines[i].product in stock
  }

  /** Total quantity the lines ask of product `p`. */
  function Demand(lines: seq<Line>, p: string): nat {
    if |lines| == 0 then 0
    else (if lines[0].product == p then lines[0].quantity else 0) + Demand(lines[1..], p)
  }

  /**
   * The loop itself: the stock left after every line, or the product of
   * the line that asked for more than was left.
   */
  function Decrement(stock: map<string, int>, lines: seq<Line>): (r: Result<map<string, int>, string>)
    requires Stocked(stock, lines)
    ensures r.Success? ==> r.value.Keys == stock.Keys
    ensures r.Failure? ==> exists i :: 0 <= i < |lines| && lines[i].product == r.error
  {
    if |lines| == 0 then Success(stock)
    else
      var p := lines[0].product;
      if lines[0].quantity > stock[p] then Failure(p)
      else
        var r := Decrement(stock[p := stock[p] - lines[0].quantity], lines[1..]);
        assert r.Failure? ==> exists i :: 1 <= i < |lines| && lines[i].product == r.error by {
          if r.Failure? {
            var i :| 0 <= i < |lines[1..]| && lines[1..][i].product == r.error;
            assert lines[i + 1].product == r.error;
          }
        }
        r
  }

  /** Every product the lines name has enough stock for all of them together. */
  predicate Sufficient(stock: map<string, int>, lines: seq<Line>)
    requires Stocked(stock, lines)
  {
    forall i :: 0 <= i < |lines| ==> Demand(lines, lines[i].product) <= stock[lines[i].product]
  }

  /**
   * Line `k` is short: it asks for more than its product's stock once the
   * lines before it have taken theirs.
   */
  predicate Shortfall(stock: map<string, int>, lines: seq<Line>, k: nat)
    requires Stocked(stock, lines) && k < |lines|
  {
    lines[k].quantity > stock[lines[k].product] - Demand(lines[..k], lines[k].product)
  }

  // ---------------------------------------------------------------------
  // Lemmas
  // ---------------------------------------------------------------------

  /** How the demand of a prefix splits into its first line and the rest. */
  lemma DemandPrefix(lines: seq<Line>, k: nat, p: string)
    requires 1 <= k <= |lines|
    ensures Demand(lines[..k], p)
         == (if lines[0].product == p then lines[0].quantity else 0) + Demand(lines[1..][..k - 1], p)
  {
    assert lines[..k][1..] == lines[1..][..k - 1];
  }

  /** Taking the first line off: the rest face the stock the first line left. */
  lemma ShortfallShift(stock: map<string, int>, lines: seq<Line>, k: nat)
    requires Stocked(stock, lines) && 1 <= k < |lines|
    requires lines[0].quantity <= stock[lines[0].product]
    ensures var p := lines[0].product;
      var rest := stock[p := stock[p] - lines[0].quantity];
      Stocked(rest, lines[1..]) && (Shortfall(stock, lines, k) <==> Shortfall(rest, lines[1..], k - 1))
  {
    DemandPrefix(lines, k, lines[k].product);
  }

  /** The loop gets through every line exactly when the stock covers the whole request, product by product. */
  lemma {:induction false} DecrementSucceedsIff(stock: map<string, int>, lines: seq<Line>)
    requires Stocked(stock, lines)
    ensures Decrement(stock, lines).Success? <==> Sufficient(stock, lines)
    decreases |lines|
  {
    if |lines| > 0 {
      var p, q := lines[0].product, lines[0].quantity;
      if q > stock[p] {
        assert Demand(lines, p) >= q;
      } else {
        var rest := stock[p := stock[p] - q];
        var tail := lines[1..];
        assert Stocked(rest, tail);
        DecrementSucceedsIff(rest, tail);
        forall x ensures Demand(lines, x) == (if x == p then q else 0) + Demand(tail, x) { }
        if Sufficient(stock, lines) {
          forall i | 0 <= i < |tail|
            ensures Demand(tail, tail[i].product) <= rest[tail[i].product]
          {
            assert tail[i] == lines[i + 1];
          }
        }
        if Sufficient(rest, tail) {
          forall i | 0 <= i < |lines|
            ensures Demand(lines, lines[i].product) <= stock[lines[i].product]
          {
            if i > 0 { assert lines[i] == tail[i - 1]; }
            else if exists j :: 0 <= j < |tail| && tail[j].product == p {
              var j :| 0 <= j < |tail| && tail[j].product == p;
              assert Demand(tail, tail[j].product) <= rest[tail[j].product];
            } else {
              DemandOfUnrequested(tail, p);
            }
          }
        }
      }
    }
  }

  /**
   * After a successful loop each product's stock has dropped by exactly the
   * quantity the lines asked of it; products not in the request keep theirs.
   */
  lemma {:induction false} DecrementLeaves(stock: map<string, int>, lines: seq<Line>)
    requires Stocked(stock, lines)
    requires Decrement(stock, lines).Success?
    ensures forall p :: p in stock ==> Decrement(stock, lines).value[p] == stock[p] - Demand(lines, p)
    decreases |lines|
  {
    if |lines| > 0 {
      var p, q := lines[0].product, lines[0].quantity;
      var rest := stock[p := stock[p] - q];
      assert Stocked(rest, lines[1..]);
      DecrementLeaves(rest, lines[1..]);
    }
  }

  /** A product no line names has no demand. */
  lemma {:induction false} DemandOfUnrequested(lines: seq<Line>, p: string)
    requires forall i :: 0 <= i < |lines| ==> lines[i].product != p
    ensures Demand(lines, p) == 0
    decreases |lines|
  {
    if |lines| > 0 {
      DemandOfUnrequested(lines[1..], p);
    }
  }

  /**
   * When the loop stops, it names the product of the first short line:
   * that line asks for more than remains, and no earlier line did.
   */
  lemma {:induction false} DecrementFailsAtFirstShortfall(stock: map<string, int>, lines: seq<Line>)
    requires Stocked(stock, lines)
    requires Decrement(stock, lines).Failure?
    ensures exists k ::
              && 0 <= k < |lines|
              && Shortfall(stock, lines, k)
              && lines[k].product == Decrement(stock, lines).error
              && forall j :: 0 <= j < k ==> !Shortfall(stock, lines, j)
    decreases |lines|
  {
    var p, q := lines[0].product, lines[0].quantity;
    assert lines[..0] == [];
    if q > stock[p] {
      assert Shortfall(stock, lines, 0);
    } else {
      var rest := stock[p := stock[p] - q];
      var tail := lines[1..];
      assert Stocked(rest, tail);
      DecrementFailsAtFirstShortfall(rest, tail);
      var k :| 0 <= k < |tail|
        && Shortfall(rest, tail, k)
        && tail[k].product == Decrement(rest, tail).error
        && forall j :: 0 <= j < k ==> !Shortfall(rest, tail, j);
      ShortfallShift(stock, lines, k + 1);
      forall j | 0 <= j < k + 1
        ensures !Shortfall(stock, lines, j)
      {
        if j > 0 { ShortfallShift(stock, lines, j); }
      }
    }
  }
}
