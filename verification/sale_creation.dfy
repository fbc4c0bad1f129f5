/**
 * `store`: validation, the stock loop, the totals, and the insertion of
 * the sale row and its detail rows, as one atomic step on the database.
 * The caller's employee, the clock and the rows the database reports as
 * the latest sale and detail are inputs. A response other than `Created`
 * leaves the database as it was: the 422 stock answer returns before the
 * commit, and every exception rolls back.
 */
module SaleCreation {
  import opened Wrappers
  import opened Schema
  import opened PhpStrings
  import opened Identifiers
  import opened Validation
  import opened Stock
  import opened Totals
  import Listing

  /** What `store` reads from outside the request. */
  datatype Context = Context(
    employee: string,                 // Auth::user()->idEmpleado
    now: int,                         // now()
    lastSale: Option<string>,         // idVenta of the latest sale, if any
    lastDetail: Option<DetailRow>     // the latest detail row, if any
  )

  datatype Response =
    | Created                      // 200, "Operación exitosa."
    | Invalid(fields: set<Field>)  // 422 from the validator
    | OutOfStock(product: string)  // 422, quantity exceeds the stock of this product
    | ServerError                  // 500, an exception rolled the transaction back

  function HttpStatus(r: Response): (code: int)
    ensures code == 200 <==> r.Created?
    ensures code == 422 <==> r.Invalid? || r.OutOfStock?
    ensures code == 500 <==> r.ServerError?
  {
    match r
    case Created => 200
    case Invalid(_) => 422
    case OutOfStock(_) => 422
    case ServerError => 500
  }

  datatype Outcome = Outcome(response: Response, db: Db)

  /** The sale row `store` inserts. */
  function NewSale(v: ValidSale, db: Db, id: string, ctx: Context): (s: Sale)
    ensures s.total == s.principal + s.tax && s.tax == s.principal * TaxRate
    ensures s.months.Some? <==> v.terms.Credit?
  {
    var principal := Principal(v.lines);
    Sale(
      id := id,
      date := ctx.now,
      kind := if v.terms.Credit? then 1 else 0,
      months := if v.terms.Credit? then Some(v.terms.months) else None,
      principal := principal,
      tax := Tax(principal),
      total := Total(principal),
      employee := ctx.employee,
      branch := None,
      legalClient := if v.client in db.legalClients then Some(v.client) else None,
      naturalClient := if v.client in db.naturalClients then Some(v.client) else None,
      status := 1)
  }

  /** The detail row built from line `l` under key `id` for sale `saleId`. */
  function RowOf(l: Line, id: string, saleId: string): DetailRow {
    DetailRow(id, l.quantity, LineSubtotal(l), l.product, saleId)
  }

  /** The keys `generarDetalleId($i)` hands out to the rows of one sale, by position. */
  function DetailKeys(lastDetail: Option<DetailRow>, n: nat): (keys: seq<string>)
    ensures |keys| == n
    ensures forall i :: 0 <= i < n ==> keys[i] == NextDetailId(lastDetail, i)
  {
    seq(n, i requires 0 <= i < n => NextDetailId(lastDetail, i))
  }

  /**
   * One sale's detail keys are pairwise distinct exactly when some detail
   * row already exists or the sale has at most one line; while the table
   * is empty every key is `DV0001`.
   */
  lemma DetailKeysDistinctIff(lastDetail: Option<DetailRow>, n: nat)
    ensures var keys := DetailKeys(lastDetail, n);
      (forall i, j :: 0 <= i < j < n ==> keys[i] != keys[j]) <==> lastDetail.Some? || n < 2
    ensures lastDetail.None? ==> forall i :: 0 <= i < n ==> DetailKeys(lastDetail, n)[i] == "DV0001"
  {
    var keys := DetailKeys(lastDetail, n);
    if lastDetail.Some? {
      DetailIdsPairwiseDistinct(lastDetail.value, n);
    } else if n >= 2 {
      assert keys[0] == keys[1];
    }
  }

  /** The detail rows the second loop of `store` evidently means to build: row i from line i. */
  function NewDetails(lines: seq<Line>, keys: seq<string>, saleId: string): (rows: seq<DetailRow>)
    requires |keys| == |lines|
    ensures |rows| == |lines|
    ensures SubtotalSum(rows) == Principal(lines)
  {
    var rows := seq(|lines|, i requires 0 <= i < |lines| => RowOf(lines[i], keys[i], saleId));
    SubtotalSumIsPrincipal(rows, lines);
    rows
  }

  /**
   * The second loop of `store` as PHP runs it. The first loop iterates with
   * `foreach ($detalles as &$detalle)` and never unsets `$detalle`, so the
   * variable still refers to the array's last slot. The second loop,
   * `foreach ($detalles as $i => $detalle)`, therefore writes the element
   * at `i` into that slot on every pass before reading it: `elems` is the
   * array as it stands when pass `i` begins.
   */
  function AliasedRows(elems: seq<Line>, keys: seq<string>, i: nat, saleId: string): (rows: seq<DetailRow>)
    requires |keys| == |elems| && i <= |elems|
    ensures |rows| == |elems| - i
    ensures forall k :: 0 <= k < |rows| ==> rows[k].id == keys[i + k] && rows[k].saleId == saleId
    decreases |elems| - i
  {
    if i == |elems| then []
    else
      var current := elems[i];
      [RowOf(current, keys[i], saleId)] + AliasedRows(elems[|elems| - 1 := current], keys, i + 1, saleId)
  }

  /** Which second loop builds the detail rows: the one the controller runs, or the one it evidently means. */
  datatype RowsPass = AsWritten | Intended

  function DetailRows(pass: RowsPass, lines: seq<Line>, keys: seq<string>, saleId: string): (rows: seq<DetailRow>)
    requires |keys| == |lines|
    ensures |rows| == |lines|
  {
    match pass
    case AsWritten => AliasedRows(lines, keys, 0, saleId)
    case Intended => NewDetails(lines, keys, saleId)
  }

  /** Either loop keys row `i` with the `i`-th key and points it at the new sale. */
  lemma DetailRowsKeys(pass: RowsPass, lines: seq<Line>, keys: seq<string>, saleId: string)
    requires |keys| == |lines|
    ensures var rows := DetailRows(pass, lines, keys, saleId);
      forall i :: 0 <= i < |rows| ==> rows[i].id == keys[i] && rows[i].saleId == saleId
  {
  }

  /** The line the as-written loop reads row `i` from: its own, except that the last of two or more repeats the one before. */
  function SourceLine(n: nat, i: nat): nat
    requires i < n
  {
    if n >= 2 && i == n - 1 then n - 2 else i
  }

  /** Row `i` of the controller's rows, stated without the loop. */
  function WrittenRow(lines: seq<Line>, keys: seq<string>, i: nat, saleId: string): DetailRow
    requires |keys| == |lines| && i < |lines|
  {
    RowOf(lines[SourceLine(|lines|, i)], keys[i], saleId)
  }

  /** The new detail rows have pairwise distinct keys, none already in the table. */
  predicate FreshKeys(rows: seq<DetailRow>, existing: seq<DetailRow>) {
    && (forall i, j :: 0 <= i < j < |rows| ==> rows[i].id != rows[j].id)
    && (forall i :: 0 <= i < |rows| ==> rows[i].id !in DetailIds(existing))
  }

  /**
   * The whole of `store`, with the detail rows built by `pass`: `AsWritten`
   * is the controller. Inserting a sale or detail key that already exists
   * raises a database exception, which the controller turns into a 500 after
   * rolling back.
   */
  function Store(db: Db, req: SaleRequest, ctx: Context, pass: RowsPass): (out: Outcome)
    ensures !out.response.Created? ==> out.db == db
    ensures out.response.Created? ==>
      && out.db.legalClients == db.legalClients
      && out.db.naturalClients == db.naturalClients
      && out.db.stock.Keys == db.stock.Keys
      && |out.db.sales| == |db.sales| + 1 && out.db.sales[..|db.sales|] == db.sales
      && |out.db.details| >= |db.details| && out.db.details[..|db.details|] == db.details
  {
    match Validate(req, db)
    case Failure(fields) => Outcome(Invalid(fields), db)
    case Success(v) =>
      match Decrement(db.stock, v.lines)
      case Failure(p) => Outcome(OutOfStock(p), db)
      case Success(stock) =>
        var id := NextSaleId(ctx.lastSale);
        var rows := DetailRows(pass, v.lines, DetailKeys(ctx.lastDetail, |v.lines|), id);
        if id in SaleIds(db.sales) || !FreshKeys(rows, db.details) then Outcome(ServerError, db)
        else
          Outcome(Created, db.(
            stock := stock,
            sales := db.sales + [NewSale(v, db, id, ctx)],
            details := db.details + rows))
  }

  // ---------------------------------------------------------------------
  // Lemmas
  // ---------------------------------------------------------------------

  /** The sum of the subtotals a sequence of detail rows carries. */
  function SubtotalSum(rows: seq<DetailRow>): real {
    if |rows| == 0 then 0.0 else rows[0].subtotal + SubtotalSum(rows[1..])
  }

  /** Rows that carry the lines' subtotals position by position add up to the principal. */
  lemma {:induction false} SubtotalSumIsPrincipal(rows: seq<DetailRow>, lines: seq<Line>)
    requires |rows| == |lines|
    requires forall i :: 0 <= i < |rows| ==> rows[i].subtotal == LineSubtotal(lines[i])
    ensures SubtotalSum(rows) == Principal(lines)
    decreases |rows|
  {
    if |rows| > 0 {
      SubtotalSumIsPrincipal(rows[1..], lines[1..]);
    }
  }

  /**
   * Validation decides first: the request is answered with the failing
   * fields exactly when it is not acceptable, and then nothing changes.
   */
  lemma StoreRejectsInvalid(db: Db, req: SaleRequest, ctx: Context, pass: RowsPass)
    ensures Store(db, req, ctx, pass).response.Invalid? <==> !Acceptable(req, db)
    ensures !Acceptable(req, db) ==>
      Store(db, req, ctx, pass) == Outcome(Invalid(Errors(req, db)), db) && Errors(req, db) != {}
  {
    ValidateAcceptsIff(req, db);
  }

  /**
   * An acceptable request is refused for stock exactly when some product
   * is asked for more than it has across all lines; the refusal names the
   * product of the first line that found too little left after the earlier
   * lines, and no stock change is committed.
   */
  lemma StoreOutOfStock(db: Db, req: SaleRequest, ctx: Context, pass: RowsPass)
    requires Validate(req, db).Success?
    ensures var lines := Validate(req, db).value.lines;
      && Stocked(db.stock, lines)
      && (Store(db, req, ctx, pass).response.OutOfStock? <==> !Sufficient(db.stock, lines))
      && (Store(db, req, ctx, pass).response.OutOfStock? ==>
            && Store(db, req, ctx, pass).db == db
            && exists k ::
                 && 0 <= k < |lines|
                 && Shortfall(db.stock, lines, k)
                 && lines[k].product == Store(db, req, ctx, pass).response.product
                 && forall j :: 0 <= j < k ==> !Shortfall(db.stock, lines, j))
  {
    var lines := Validate(req, db).value.lines;
    DecrementSucceedsIff(db.stock, lines);
    if Decrement(db.stock, lines).Failure? {
      DecrementFailsAtFirstShortfall(db.stock, lines);
    }
  }

  /**
   * A created sale lowers each product's stock by the total quantity its
   * lines asked for, leaves every other product alone, and drives no
   * requested product below zero.
   */
  lemma StoreConservesStock(db: Db, req: SaleRequest, ctx: Context, pass: RowsPass)
    requires Store(db, req, ctx, pass).response.Created?
    ensures Validate(req, db).Success?
    ensures var lines := Validate(req, db).value.lines;
      var after := Store(db, req, ctx, pass).db.stock;
      && after.Keys == db.stock.Keys
      && (forall p :: p in db.stock ==> after[p] == db.stock[p] - Demand(lines, p))
      && (forall i :: 0 <= i < |lines| ==> after[lines[i].product] >= 0)
      && (forall p :: p in db.stock && (forall i :: 0 <= i < |lines| ==> lines[i].product != p) ==>
            after[p] == db.stock[p])
  {
    var lines := Validate(req, db).value.lines;
    DecrementSucceedsIff(db.stock, lines);
    DecrementLeaves(db.stock, lines);
    forall p | p in db.stock && (forall i :: 0 <= i < |lines| ==> lines[i].product != p)
      ensures Demand(lines, p) == 0
    {
      DemandOfUnrequested(lines, p);
    }
  }

  /**
   * The sale row a created sale adds: the next sale identifier, the
   * request's payment type as 1 or 0, months only on credit, the caller
   * and the clock, a client reference in each table the client is found
   * in, status active, and principal, IVA and total consistent with the
   * lines.
   */
  lemma StoreInsertsSale(db: Db, req: SaleRequest, ctx: Context, pass: RowsPass)
    requires Store(db, req, ctx, pass).response.Created?
    ensures Validate(req, db).Success? && req.client.Some?
    ensures var s := Store(db, req, ctx, pass).db.sales[|db.sales|];
      var lines := Validate(req, db).value.lines;
      && s.id == NextSaleId(ctx.lastSale)
      && s.id !in SaleIds(db.sales)
      && (s.kind == 1 <==> req.kind == Some(CreditToken))
      && (s.kind == 0 <==> req.kind == Some(CashToken))
      && (req.kind == Some(CashToken) ==> s.months == None)
      && (req.kind == Some(CreditToken) ==> req.months.IntLit? && s.months == Some(req.months.n) && req.months.n >= 1)
      && s.status == 1
      && s.date == ctx.now && s.employee == ctx.employee && s.branch == None
      && (s.legalClient.Some? <==> req.client.value in db.legalClients)
      && (s.naturalClient.Some? <==> req.client.value in db.naturalClients)
      && (s.legalClient.Some? || s.naturalClient.Some?)
      && (s.legalClient.Some? ==> s.legalClient.value == req.client.value)
      && (s.naturalClient.Some? ==> s.naturalClient.value == req.client.value)
      && s.principal == Principal(lines)
      && s.tax == s.principal * 0.14
      && s.total == s.principal * 1.14
  {
  }

  /**
   * The sale gets a reference in every client table that holds the
   * identifier, so it references exactly one client kind only when the two
   * tables do not share that identifier.
   */
  lemma ClientReferenceExclusive(db: Db, req: SaleRequest, ctx: Context, pass: RowsPass)
    requires Store(db, req, ctx, pass).response.Created?
    ensures var s := Store(db, req, ctx, pass).db.sales[|db.sales|];
      (s.legalClient.Some? && s.naturalClient.Some?) <==>
        (req.client.Some? && req.client.value in db.legalClients * db.naturalClients)
  {
  }

  /**
   * The sale `store` creates has no branch, so the employee who made it,
   * unless they are the administrator, finds it in the unfiltered listing
   * exactly when their own department's branch is null as well: while the
   * branch is set, the creator never sees the sales `store` inserts.
   */
  lemma CreatedSaleVisibleIff(db: Db, req: SaleRequest, ctx: Context, pass: RowsPass, user: Listing.User)
    requires Store(db, req, ctx, pass).response.Created?
    requires user.name != Listing.AdminName && user.employee == ctx.employee
    ensures var after := Store(db, req, ctx, pass).db;
      && Listing.ListSales(after, user, "v-todas", "c-todos").Success?
      && (after.sales[|db.sales|] in Listing.ListSales(after, user, "v-todas", "c-todos").value <==> user.branch.None?)
  {
    var after := Store(db, req, ctx, pass).db;
    StoreInsertsSale(db, req, ctx, pass);
    Listing.BranchlessSaleVisibleIff(after, user, after.sales[|db.sales|]);
  }

  // ---------------------------------------------------------------------
  // The detail rows as written and as intended
  // ---------------------------------------------------------------------

  /**
   * What the aliased loop builds from pass `i` on, given the array as it
   * stands then: rows before the last come from their own lines, and the
   * last of two or more comes from the line before it.
   */
  lemma {:induction false} AliasedRowsShape(elems: seq<Line>, keys: seq<string>, i: nat, lines: seq<Line>, saleId: string)
    requires |elems| == |lines| == |keys| && i <= |elems|
    requires forall k :: 0 <= k < |lines| - 1 ==> elems[k] == lines[k]
    requires i == 0 ==> elems == lines
    requires 0 < i < |elems| ==> elems[|elems| - 1] == lines[i - 1]
    ensures var rows := AliasedRows(elems, keys, i, saleId);
      forall j :: i <= j < |lines| ==> rows[j - i] == WrittenRow(lines, keys, j, saleId)
    decreases |elems| - i
  {
    if i < |elems| {
      var current := elems[i];
      var next := elems[|elems| - 1 := current];
      assert current == lines[SourceLine(|lines|, i)];
      AliasedRowsShape(next, keys, i + 1, lines, saleId);
      var rows := AliasedRows(elems, keys, i, saleId);
      var rest := AliasedRows(next, keys, i + 1, saleId);
      assert rows == [RowOf(current, keys[i], saleId)] + rest;
      forall j | i < j < |lines|
        ensures rows[j - i] == WrittenRow(lines, keys, j, saleId)
      {
        assert rows[j - i] == rest[j - (i + 1)];
      }
    }
  }

  /** The controller's rows are the rows `WrittenRow` describes. */
  lemma AsWrittenRows(lines: seq<Line>, keys: seq<string>, saleId: string)
    requires |keys| == |lines|
    ensures var written := DetailRows(AsWritten, lines, keys, saleId);
      forall i :: 0 <= i < |lines| ==> written[i] == WrittenRow(lines, keys, i, saleId)
  {
    AliasedRowsShape(lines, keys, 0, lines, saleId);
  }

  /**
   * The controller's rows equal the intended ones exactly when there are
   * fewer than two lines or the last two lines carry the same product,
   * quantity and subtotal.
   */
  lemma AsWrittenIsIntendedIff(lines: seq<Line>, keys: seq<string>, saleId: string)
    requires |keys| == |lines|
    ensures DetailRows(AsWritten, lines, keys, saleId) == DetailRows(Intended, lines, keys, saleId)
        <==> |lines| < 2 || SameLineData(lines[|lines| - 2], lines[|lines| - 1])
  {
    if |lines| >= 2 {
      LastRowDiffers(lines, keys, saleId);
    } else {
      ShortListsAgree(lines, keys, saleId);
    }
  }

  /** The controller's rows and the intended ones agree at every position but the last. */
  lemma AgreeBeforeLast(lines: seq<Line>, keys: seq<string>, saleId: string)
    requires |keys| == |lines|
    ensures var written := DetailRows(AsWritten, lines, keys, saleId);
      var meant := DetailRows(Intended, lines, keys, saleId);
      forall i :: 0 <= i < |lines| - 1 ==> written[i] == meant[i]
  {
    var written := DetailRows(AsWritten, lines, keys, saleId);
    var meant := NewDetails(lines, keys, saleId);
    AsWrittenRows(lines, keys, saleId);
    forall i | 0 <= i < |lines| - 1
      ensures written[i] == meant[i]
    {
      assert written[i] == WrittenRow(lines, keys, i, saleId);
    }
  }

  /** With two or more lines the two builders differ exactly when the last two lines carry different row data. */
  lemma LastRowDiffers(lines: seq<Line>, keys: seq<string>, saleId: string)
    requires |keys| == |lines| >= 2
    ensures var written := DetailRows(AsWritten, lines, keys, saleId);
      var meant := DetailRows(Intended, lines, keys, saleId);
      written == meant <==> SameLineData(lines[|lines| - 2], lines[|lines| - 1])
  {
    var written := DetailRows(AsWritten, lines, keys, saleId);
    var meant := NewDetails(lines, keys, saleId);
    var n := |lines|;
    AsWrittenRows(lines, keys, saleId);
    assert written[n - 1] == RowOf(lines[n - 2], keys[n - 1], saleId);
    assert meant[n - 1] == RowOf(lines[n - 1], keys[n - 1], saleId);
    RowOfEqual(lines[n - 2], lines[n - 1], keys[n - 1], saleId);
    if SameLineData(lines[n - 2], lines[n - 1]) {
      AgreeBeforeLast(lines, keys, saleId);
      RowsEqual(written, meant);
    }
  }

  /** Two lines give the same row under the same key exactly when they carry the same row data. */
  lemma RowOfEqual(a: Line, b: Line, id: string, saleId: string)
    ensures RowOf(a, id, saleId) == RowOf(b, id, saleId) <==> SameLineData(a, b)
  {
  }

  /** Two row lists that agree at every position are equal. */
  lemma RowsEqual(a: seq<DetailRow>, b: seq<DetailRow>)
    requires |a| == |b| && forall i :: 0 <= i < |a| ==> a[i] == b[i]
    ensures a == b
  {
  }

  /** With fewer than two lines the two builders agree. */
  lemma ShortListsAgree(lines: seq<Line>, keys: seq<string>, saleId: string)
    requires |keys| == |lines| < 2
    ensures DetailRows(AsWritten, lines, keys, saleId) == DetailRows(Intended, lines, keys, saleId)
  {
    var written := DetailRows(AsWritten, lines, keys, saleId);
    var meant := NewDetails(lines, keys, saleId);
    AsWrittenRows(lines, keys, saleId);
    if |lines| == 1 {
      assert written[0] == WrittenRow(lines, keys, 0, saleId);
    }
    RowsEqual(written, meant);
  }

  /** Two lines give the same detail row data: product, quantity and subtotal. */
  predicate SameLineData(a: Line, b: Line) {
    a.product == b.product && a.quantity == b.quantity && LineSubtotal(a) == LineSubtotal(b)
  }

  /** Changing one row's subtotal changes the sum by exactly that difference. */
  lemma {:induction false} SubtotalSumReplace(a: seq<DetailRow>, b: seq<DetailRow>, k: int)
    requires |a| == |b|
    requires forall j :: 0 <= j < |a| && j != k ==> a[j].subtotal == b[j].subtotal
    ensures SubtotalSum(a) - (if 0 <= k < |a| then a[k].subtotal else 0.0)
         == SubtotalSum(b) - (if 0 <= k < |b| then b[k].subtotal else 0.0)
    decreases |a|
  {
    if |a| > 0 {
      SubtotalSumReplace(a[1..], b[1..], k - 1);
    }
  }

  /**
   * The subtotals of the controller's rows add up to the principal with the
   * last line's subtotal swapped for the one before it.
   */
  lemma AsWrittenSubtotalSum(lines: seq<Line>, keys: seq<string>, saleId: string)
    requires |keys| == |lines|
    ensures SubtotalSum(DetailRows(AsWritten, lines, keys, saleId))
         == Principal(lines)
            + (if |lines| >= 2 then LineSubtotal(lines[|lines| - 2]) - LineSubtotal(lines[|lines| - 1]) else 0.0)
  {
    var written := DetailRows(AsWritten, lines, keys, saleId);
    var meant := NewDetails(lines, keys, saleId);
    var n := |lines|;
    AgreeBeforeLast(lines, keys, saleId);
    SubtotalSumReplace(written, meant, n - 1);
    assert SubtotalSum(meant) == Principal(lines) by {
      SubtotalSumIsPrincipal(meant, lines);
    }
    if n >= 2 {
      assert written[n - 1].subtotal == LineSubtotal(lines[n - 2]) by {
        AsWrittenRows(lines, keys, saleId);
        assert written[n - 1] == WrittenRow(lines, keys, n - 1, saleId);
      }
      assert meant[n - 1].subtotal == LineSubtotal(lines[n - 1]);
    }
  }

  /**
   * A counterexample: lines A 2 x 10.00 and B 1 x 5.00 give two rows for A
   * and none for B, whose subtotals add up to 40.00 against a principal of
   * 25.00.
   */
  lemma LastRowRepeatsPrevious(keys: seq<string>, saleId: string)
    requires |keys| == 2
    ensures var lines := [Line("A", 2, 10.0), Line("B", 1, 5.0)];
      var rows := DetailRows(AsWritten, lines, keys, saleId);
      && rows[0].product == "A" && rows[0].quantity == 2 && rows[0].subtotal == 20.0
      && rows[1].product == "A" && rows[1].quantity == 2 && rows[1].subtotal == 20.0
      && SubtotalSum(rows) == 40.0 && Principal(lines) == 25.0
      && rows != DetailRows(Intended, lines, keys, saleId)
  {
    var lines := [Line("A", 2, 10.0), Line("B", 1, 5.0)];
    AsWrittenRows(lines, keys, saleId);
    assert WrittenRow(lines, keys, 1, saleId).product == "A";
    AsWrittenIsIntendedIff(lines, keys, saleId);
    AsWrittenSubtotalSum(lines, keys, saleId);
    assert lines[1..] == [Line("B", 1, 5.0)] && lines[1..][1..] == [];
    assert LineSubtotal(lines[0]) == 20.0 && LineSubtotal(lines[1]) == 5.0;
  }

  /**
   * The detail rows the controller adds for a created sale: one per line,
   * keyed by position under keys new to the table and pointing at the new
   * sale, each carrying the product, quantity and subtotal of its source
   * line, which is its own line except that the last of two or more repeats
   * the line before it; their subtotals therefore add up to the principal
   * with the last line's subtotal swapped for the previous one's.
   */
  lemma StoreInsertsDetailsAsWritten(db: Db, req: SaleRequest, ctx: Context)
    requires Store(db, req, ctx, AsWritten).response.Created?
    ensures Validate(req, db).Success?
    ensures var after := Store(db, req, ctx, AsWritten).db;
      && |after.details| == |db.details| + |Validate(req, db).value.lines|
      && |req.lines.value| == |Validate(req, db).value.lines|
    ensures var after := Store(db, req, ctx, AsWritten).db;
      var rows := after.details[|db.details|..];
      forall i :: 0 <= i < |rows| ==>
        && rows[i].id == NextDetailId(ctx.lastDetail, i)
        && rows[i].id !in DetailIds(db.details)
        && rows[i].saleId == after.sales[|db.sales|].id
    ensures var after := Store(db, req, ctx, AsWritten).db;
      var lines := Validate(req, db).value.lines;
      var rows := after.details[|db.details|..];
      forall i :: 0 <= i < |rows| ==>
        && req.lines.value[SourceLine(|lines|, i)].product == Some(rows[i].product)
        && req.lines.value[SourceLine(|lines|, i)].quantity == IntLit(rows[i].quantity)
        && rows[i].subtotal == LineSubtotal(lines[SourceLine(|lines|, i)])
    ensures var after := Store(db, req, ctx, AsWritten).db;
      var lines := Validate(req, db).value.lines;
      var n := |lines|;
      SubtotalSum(after.details[|db.details|..]) == after.sales[|db.sales|].principal
        + (if n >= 2 then LineSubtotal(lines[n - 2]) - LineSubtotal(lines[n - 1]) else 0.0)
    ensures var after := Store(db, req, ctx, AsWritten).db;
      var rows := after.details[|db.details|..];
      forall i, j :: 0 <= i < j < |rows| ==> rows[i].id != rows[j].id
  {
    var v := Validate(req, db).value;
    var after := Store(db, req, ctx, AsWritten).db;
    var keys := DetailKeys(ctx.lastDetail, |v.lines|);
    var rows := DetailRows(AsWritten, v.lines, keys, NextSaleId(ctx.lastSale));
    assert after.details[|db.details|..] == rows;
    assert FreshKeys(rows, db.details);
    DetailRowsKeys(AsWritten, v.lines, keys, NextSaleId(ctx.lastSale));
    forall i | 0 <= i < |rows|
      ensures && req.lines.value[SourceLine(|v.lines|, i)].product == Some(rows[i].product)
              && req.lines.value[SourceLine(|v.lines|, i)].quantity == IntLit(rows[i].quantity)
              && rows[i].subtotal == LineSubtotal(v.lines[SourceLine(|v.lines|, i)])
    {
      AsWrittenRowFromRequest(req, db, v, keys, NextSaleId(ctx.lastSale), i);
    }
    AsWrittenSubtotalSum(v.lines, keys, NextSaleId(ctx.lastSale));
  }

  /** Row `i` the controller builds carries its source line's data as the request gave it. */
  lemma AsWrittenRowFromRequest(req: SaleRequest, db: Db, v: ValidSale, keys: seq<string>, saleId: string, i: nat)
    requires Validate(req, db) == Success(v)
    requires |keys| == |v.lines| && i < |v.lines|
    ensures var row := DetailRows(AsWritten, v.lines, keys, saleId)[i];
      var k := SourceLine(|v.lines|, i);
      && req.lines.value[k].product == Some(row.product)
      && req.lines.value[k].quantity == IntLit(row.quantity)
      && row.subtotal == LineSubtotal(v.lines[k])
  {
    AsWrittenRows(v.lines, keys, saleId);
    assert DetailRows(AsWritten, v.lines, keys, saleId)[i] == WrittenRow(v.lines, keys, i, saleId);
  }

  /**
   * The detail rows the loop evidently means to add: one per line in line
   * order, each with the line's quantity, product and quantity times price,
   * all pointing at the new sale, under keys new to the table; their
   * subtotals add up to the sale's principal.
   */
  lemma StoreInsertsDetails(db: Db, req: SaleRequest, ctx: Context)
    requires Store(db, req, ctx, Intended).response.Created?
    ensures Validate(req, db).Success?
    ensures var after := Store(db, req, ctx, Intended).db;
      var lines := Validate(req, db).value.lines;
      var rows := after.details[|db.details|..];
      && |after.details| == |db.details| + |lines|
      && |req.lines.value| == |lines|
      && (forall i :: 0 <= i < |rows| ==>
            && rows[i].id == NextDetailId(ctx.lastDetail, i)
            && rows[i].id !in DetailIds(db.details)
            && req.lines.value[i].product == Some(rows[i].product)
            && req.lines.value[i].quantity == IntLit(rows[i].quantity)
            && rows[i].subtotal == lines[i].quantity as real * lines[i].price
            && rows[i].saleId == after.sales[|db.sales|].id)
      && (forall i, j :: 0 <= i < j < |rows| ==> rows[i].id != rows[j].id)
      && SubtotalSum(rows) == after.sales[|db.sales|].principal
  {
    var v := Validate(req, db).value;
    var after := Store(db, req, ctx, Intended).db;
    var keys := DetailKeys(ctx.lastDetail, |v.lines|);
    var rows := NewDetails(v.lines, keys, NextSaleId(ctx.lastSale));
    assert after.details[|db.details|..] == rows;
    SubtotalSumIsPrincipal(rows, v.lines);
  }

  // ---------------------------------------------------------------------
  // Key clashes
  // ---------------------------------------------------------------------

  /**
   * With an empty detail table every line of the first sale is keyed
   * DV0001, so a first sale of two or more lines that passes validation
   * and the stock check always ends in the 500 answer.
   */
  lemma FirstMultiLineSaleFails(db: Db, req: SaleRequest, ctx: Context, pass: RowsPass)
    requires ctx.lastDetail.None?
    requires Validate(req, db).Success? && |Validate(req, db).value.lines| >= 2
    requires Decrement(db.stock, Validate(req, db).value.lines).Success?
    ensures Store(db, req, ctx, pass) == Outcome(ServerError, db)
  {
    var v := Validate(req, db).value;
    var keys := DetailKeys(ctx.lastDetail, |v.lines|);
    var rows := DetailRows(pass, v.lines, keys, NextSaleId(ctx.lastSale));
    DetailRowsKeys(pass, v.lines, keys, NextSaleId(ctx.lastSale));
    assert rows[0].id == rows[1].id;
  }

  /**
   * Once some detail row exists, one sale's detail keys never collide with
   * each other; only a clash with keys already in the tables makes a valid,
   * stocked request fail.
   */
  lemma StoreFailsOnlyOnKeyClash(db: Db, req: SaleRequest, ctx: Context, pass: RowsPass)
    requires ctx.lastDetail.Some?
    requires Validate(req, db).Success?
    requires Decrement(db.stock, Validate(req, db).value.lines).Success?
    ensures var id := NextSaleId(ctx.lastSale);
      var lines := Validate(req, db).value.lines;
      Store(db, req, ctx, pass).response.ServerError? <==>
        (id in SaleIds(db.sales)
         || exists i :: 0 <= i < |lines| && NextDetailId(ctx.lastDetail, i) in DetailIds(db.details))
  {
    var v := Validate(req, db).value;
    var id := NextSaleId(ctx.lastSale);
    var rows := DetailRows(pass, v.lines, DetailKeys(ctx.lastDetail, |v.lines|), id);
    assert Store(db, req, ctx, pass).response.ServerError? <==> (id in SaleIds(db.sales) || !FreshKeys(rows, db.details));
    FreshKeysIff(pass, v.lines, ctx.lastDetail, id, db.details);
  }

  /**
   * A validated request is created exactly when every product's total
   * demand fits its stock, the next sale key is new, every detail key is
   * new, and the detail keys cannot collide with each other: some detail
   * row already exists or the sale has a single line.
   */
  lemma StoreCreatedIff(db: Db, req: SaleRequest, ctx: Context, pass: RowsPass, v: ValidSale)
    requires Validate(req, db) == Success(v)
    ensures Store(db, req, ctx, pass).response.Created? <==>
      && Sufficient(db.stock, v.lines)
      && NextSaleId(ctx.lastSale) !in SaleIds(db.sales)
      && (forall i :: 0 <= i < |v.lines| ==> NextDetailId(ctx.lastDetail, i) !in DetailIds(db.details))
      && (ctx.lastDetail.Some? || |v.lines| == 1)
  {
    DecrementSucceedsIff(db.stock, v.lines);
    FreshKeysIff(pass, v.lines, ctx.lastDetail, NextSaleId(ctx.lastSale), db.details);
  }

  /**
   * The rows of one sale get fresh, distinct keys exactly when no key is
   * already taken and the keys cannot collide with each other.
   */
  lemma FreshKeysIff(pass: RowsPass, lines: seq<Line>, lastDetail: Option<DetailRow>, saleId: string, existing: seq<DetailRow>)
    ensures FreshKeys(DetailRows(pass, lines, DetailKeys(lastDetail, |lines|), saleId), existing) <==>
      && (forall i :: 0 <= i < |lines| ==> NextDetailId(lastDetail, i) !in DetailIds(existing))
      && (lastDetail.Some? || |lines| < 2)
  {
    var keys := DetailKeys(lastDetail, |lines|);
    var rows := DetailRows(pass, lines, keys, saleId);
    DetailRowsKeys(pass, lines, keys, saleId);
    FreshKeysOfKeys(rows, keys, existing);
    DetailKeysDistinctIff(lastDetail, |lines|);
  }

  /** Rows keyed by `keys` have fresh, distinct keys exactly when the keys are new and pairwise distinct. */
  lemma FreshKeysOfKeys(rows: seq<DetailRow>, keys: seq<string>, existing: seq<DetailRow>)
    requires |rows| == |keys| && forall i :: 0 <= i < |rows| ==> rows[i].id == keys[i]
    ensures FreshKeys(rows, existing) <==>
      && (forall i :: 0 <= i < |keys| ==> keys[i] !in DetailIds(existing))
      && (forall i, j :: 0 <= i < j < |keys| ==> keys[i] != keys[j])
  {
  }

  /** The success path of `Store`, spelled out for the worked example. */
  lemma CreatedOutcome(db: Db, req: SaleRequest, ctx: Context, pass: RowsPass, v: ValidSale, stock: map<string, int>, rows: seq<DetailRow>)
    requires Validate(req, db) == Success(v)
    requires Decrement(db.stock, v.lines) == Success(stock)
    requires NextSaleId(ctx.lastSale) !in SaleIds(db.sales)
    requires rows == DetailRows(pass, v.lines, DetailKeys(ctx.lastDetail, |v.lines|), NextSaleId(ctx.lastSale))
    requires FreshKeys(rows, db.details)
    ensures Store(db, req, ctx, pass)
         == Outcome(Created, db.(stock := stock, sales := db.sales + [NewSale(v, db, NextSaleId(ctx.lastSale), ctx)], details := db.details + rows))
  {
  }

  // ---------------------------------------------------------------------
  // A worked example
  // ---------------------------------------------------------------------

  /** The keys of the example's second sale: VT0002, then DV0002 and DV0003. */
  lemma ExampleKeys(first: DetailRow)
    requires first.id == "DV0001" && first.saleId == "VT0001"
    ensures NextSaleId(Some("VT0001")) == "VT0002"
    ensures NextDetailId(Some(first), 0) == "DV0002" && NextDetailId(Some(first), 1) == "DV0003"
  {
    SuffixOfVT0001();
    FormatSmall("VT", 2);
    FormatSmall("DV", 2);
    FormatSmall("DV", 3);
  }

  lemma SuffixOfVT0001()
    ensures Suffix("VT0001") == 1
  {
    assert DigitChar(1) == '1';
    SuffixOfOneDigit("VT", 1);
    assert "VT" + "000" + ['1'] == "VT0001";
  }

  /** The formatted identifiers the example needs, spelled out. */
  lemma FormatSmall(prefix: string, k: nat)
    requires prefix == "VT" || prefix == "DV"
    requires k == 2 || k == 3
    ensures k == 2 && prefix == "VT" ==> Format(prefix, k) == "VT0002"
    ensures k == 2 && prefix == "DV" ==> Format(prefix, k) == "DV0002"
    ensures k == 3 && prefix == "DV" ==> Format(prefix, k) == "DV0003"
  {
    FormatOneDigit(prefix, k);
    assert DigitChar(2) == '2' && DigitChar(3) == '3';
  }

  /** The example's request passes validation as a cash sale of two lines. */
  lemma ExampleValidates(db: Db, req: SaleRequest)
    requires db.stock == map["A" := 5, "B" := 3]
    requires "C1" in db.naturalClients
    requires req == SaleRequest(Some("C1"), Some("Contado"), Absent,
      Some([LineInput(Some("A"), IntLit(2), NumLit(10.0)), LineInput(Some("B"), IntLit(1), NumLit(5.0))]))
    ensures Validate(req, db) == Success(ValidSale("C1", Cash, [Line("A", 2, 10.0), Line("B", 1, 5.0)]))
  {
    ValidateAcceptsIff(req, db);
    assert Acceptable(req, db);
    var v := Validate(req, db).value;
    assert v.terms == Cash;
    assert v.lines[0] == Line("A", 2, 10.0);
    assert v.lines[1] == Line("B", 1, 5.0);
    assert v.lines == [Line("A", 2, 10.0), Line("B", 1, 5.0)];
  }

  /** The example's lines fit the stock, lower A by 2 and B by 1, and are worth 25.00. */
  lemma ExampleStock(lines: seq<Line>)
    requires lines == [Line("A", 2, 10.0), Line("B", 1, 5.0)]
    ensures Decrement(map["A" := 5, "B" := 3], lines) == Success(map["A" := 3, "B" := 2])
    ensures Principal(lines) == 25.0
  {
    var stock := map["A" := 5, "B" := 3];
    DecrementSucceedsIff(stock, lines);
    var tail := lines[1..];
    assert tail == [Line("B", 1, 5.0)] && tail[1..] == [];
    assert Demand(tail, "A") == 0 && Demand(tail, "B") == 1;
    assert LineSubtotal(lines[0]) == 20.0 && LineSubtotal(tail[0]) == 5.0;
    assert Principal(tail) == 5.0;
    assert Demand(lines, "A") == 2 && Demand(lines, "B") == 1;
    assert Sufficient(stock, lines);
    DecrementLeaves(stock, lines);
    var after := Decrement(stock, lines).value;
    assert after.Keys == stock.Keys;
    assert after == map["A" := 3, "B" := 2];
  }

  /** The detail keys of the example's second sale. */
  lemma ExampleDetailKeys(first: DetailRow) returns (keys: seq<string>)
    requires first.id == "DV0001" && first.saleId == "VT0001"
    ensures keys == DetailKeys(Some(first), 2) == ["DV0002", "DV0003"]
  {
    ExampleKeys(first);
    keys := DetailKeys(Some(first), 2);
    assert keys[0] == "DV0002" && keys[1] == "DV0003";
  }

  /** The rows the controller builds for the example: both for 2 x A. */
  lemma ExampleRows() returns (rows: seq<DetailRow>)
    ensures rows == DetailRows(AsWritten, [Line("A", 2, 10.0), Line("B", 1, 5.0)], ["DV0002", "DV0003"], "VT0002")
    ensures rows == [DetailRow("DV0002", 2, 20.0, "A", "VT0002"), DetailRow("DV0003", 2, 20.0, "A", "VT0002")]
  {
    var lines := [Line("A", 2, 10.0), Line("B", 1, 5.0)];
    var keys := ["DV0002", "DV0003"];
    rows := DetailRows(AsWritten, lines, keys, "VT0002");
    AsWrittenRows(lines, keys, "VT0002");
    assert LineSubtotal(lines[0]) == 20.0;
    assert rows[0] == WrittenRow(lines, keys, 0, "VT0002");
    assert rows[1] == WrittenRow(lines, keys, 1, "VT0002");
  }

  /** The example's sale key and detail rows, from the context's latest rows. */
  lemma ExampleRowsBuilt(ctx: Context)
    requires ctx.lastSale == Some("VT0001") && ctx.lastDetail == Some(DetailRow("DV0001", 1, 1.0, "A", "VT0001"))
    ensures NextSaleId(ctx.lastSale) == "VT0002"
    ensures DetailRows(AsWritten, [Line("A", 2, 10.0), Line("B", 1, 5.0)], DetailKeys(ctx.lastDetail, 2), NextSaleId(ctx.lastSale))
         == [DetailRow("DV0002", 2, 20.0, "A", "VT0002"), DetailRow("DV0003", 2, 20.0, "A", "VT0002")]
  {
    ExampleKeys(ctx.lastDetail.value);
    var keys := ExampleDetailKeys(ctx.lastDetail.value);
    var built := ExampleRows();
  }

  /** The example's new keys are not in the tables yet. */
  lemma ExampleKeysFresh(db: Db)
    requires |db.sales| == 1 && db.sales[0].id == "VT0001"
    requires db.details == [DetailRow("DV0001", 1, 1.0, "A", "VT0001")]
    ensures "VT0002" !in SaleIds(db.sales)
    ensures FreshKeys([DetailRow("DV0002", 2, 20.0, "A", "VT0002"), DetailRow("DV0003", 2, 20.0, "A", "VT0002")], db.details)
  {
    assert SaleIds(db.sales) == {"VT0001"};
    assert |db.details| == 1 && db.details[0].id == "DV0001";
    assert DetailIds(db.details) == {"DV0001"};
  }

  /** The example's outcome once its request has validated: created, with the new stock, sale row and detail rows. */
  lemma ExampleStored(db: Db, req: SaleRequest, ctx: Context)
    requires db.stock == map["A" := 5, "B" := 3]
    requires |db.sales| == 1 && db.sales[0].id == "VT0001"
    requires db.details == [DetailRow("DV0001", 1, 1.0, "A", "VT0001")]
    requires ctx.lastSale == Some("VT0001") && ctx.lastDetail == Some(db.details[0])
    requires Validate(req, db) == Success(ValidSale("C1", Cash, [Line("A", 2, 10.0), Line("B", 1, 5.0)]))
    ensures Store(db, req, ctx, AsWritten) == Outcome(Created, db.(
      stock := map["A" := 3, "B" := 2],
      sales := db.sales + [NewSale(ValidSale("C1", Cash, [Line("A", 2, 10.0), Line("B", 1, 5.0)]), db, "VT0002", ctx)],
      details := db.details + [DetailRow("DV0002", 2, 20.0, "A", "VT0002"), DetailRow("DV0003", 2, 20.0, "A", "VT0002")]))
  {
    var lines := [Line("A", 2, 10.0), Line("B", 1, 5.0)];
    var rows := [DetailRow("DV0002", 2, 20.0, "A", "VT0002"), DetailRow("DV0003", 2, 20.0, "A", "VT0002")];
    var v := ValidSale("C1", Cash, lines);
    ExampleStock(lines);
    ExampleRowsBuilt(ctx);
    ExampleKeysFresh(db);
    CreatedOutcome(db, req, ctx, AsWritten, v, map["A" := 3, "B" := 2], rows);
  }

  /**
   * The worked example on a database that already holds one sale VT0001
   * with one detail row DV0001: product A at 2 x 10.00 and product B at
   * 1 x 5.00, with enough stock, give sale VT0002 with principal 25.00, IVA
   * 3.50 and total 28.50, lower A by 2 and B by 1, and add rows DV0002 and
   * DV0003, both for 2 x A at 20.00 as the controller runs.
   */
  lemma TwoLineExample(db: Db, req: SaleRequest, ctx: Context)
    requires db.stock == map["A" := 5, "B" := 3]
    requires "C1" in db.naturalClients
    requires |db.sales| == 1 && db.sales[0].id == "VT0001"
    requires db.details == [DetailRow("DV0001", 1, 1.0, "A", "VT0001")]
    requires ctx.lastSale == Some("VT0001") && ctx.lastDetail == Some(db.details[0])
    requires req == SaleRequest(Some("C1"), Some("Contado"), Absent,
      Some([LineInput(Some("A"), IntLit(2), NumLit(10.0)), LineInput(Some("B"), IntLit(1), NumLit(5.0))]))
    ensures var out := Store(db, req, ctx, AsWritten);
      && out.response == Created
      && out.db.stock == map["A" := 3, "B" := 2]
      && out.db.sales[1].id == "VT0002"
      && out.db.sales[1].principal == 25.0
      && out.db.sales[1].tax == 3.5
      && out.db.sales[1].total == 28.5
      && out.db.details[1..] == [DetailRow("DV0002", 2, 20.0, "A", "VT0002"), DetailRow("DV0003", 2, 20.0, "A", "VT0002")]
  {
    var lines := [Line("A", 2, 10.0), Line("B", 1, 5.0)];
    var rows := [DetailRow("DV0002", 2, 20.0, "A", "VT0002"), DetailRow("DV0003", 2, 20.0, "A", "VT0002")];
    var sale := NewSale(ValidSale("C1", Cash, lines), db, "VT0002", ctx);
    ExampleValidates(db, req);
    ExampleStored(db, req, ctx);
    assert sale.principal == 25.0 by {
      ExampleStock(lines);
    }
    var after := Store(db, req, ctx, AsWritten).db;
    assert after.sales == db.sales + [sale];
    assert after.sales[1] == sale;
    assert after.details == db.details + rows;
    assert after.details[1..] == rows;
  }
}
