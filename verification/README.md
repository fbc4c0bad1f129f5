# Sale creation in `VentaController`, modelled in Dafny

This project models the sale logic of a small business-management web
application's sales controller (`app/Http/Controllers/VentaController.php`).
It covers six functions of the controller:

- `store`, which creates a sale;
- the two identifier allocators `generarId` and `generarDetalleId`;
- the filtered sale listing `getVentas`;
- the status toggles `baja` and `alta`.

The database is an immutable value. It holds the stock of each product,
the identifiers of the two client tables (`cliente_juridico` and
`cliente_natural`), and the sale and detail tables. Each action is a pure
function from the database and the request to a response and the new
database.

- `wrappers.dfy`: `Option` and `Result`.
- `php_strings.dfy`: the PHP builtins the allocators use: `substr`,
  `intval` on a string, the conversion of an integer to text, and
  `str_pad` with `STR_PAD_LEFT`.
- `schema.dfy`: the `venta` and `detalle_venta` rows and the database
  state.
- `identifiers.dfy`: `generarId` (`NextSaleId`) and `generarDetalleId`
  (`NextDetailId`). The "latest" row is an input.
- `validation.dfy`: Laravel's rules for the sale request. A request that
  fails is answered with the set of failing fields. A request that passes
  becomes a typed `ValidSale`.
- `stock.dfy`: the stock loop of `store`.
- `totals.dfy`: line subtotal, principal (`SaldoCapital`), IVA at 14%, and
  total.
- `sale_creation.dfy`: `store` as a whole. `Store` takes a `RowsPass`
  that chooses how the detail rows are built: `AsWritten` is the loop as
  PHP runs it, and `Intended` is the loop the code evidently means (see
  "## Findings"). Every lemma about validation, stock, the sale row and
  key clashes holds for both.
- `listing.dfy`: `getVentas`.
- `status.dfy`: `baja` and `alta`.

Behaviour of the code that the model keeps as written:

- The 422 stock answer returns before `DB::commit()`. The decrements of
  earlier lines are never committed, so the model leaves the database
  unchanged.
- Each line re-reads its product's stock. Two lines for the same product
  therefore share that product's stock: the loop gets through exactly
  when each product's total demand fits its stock
  (`Stock.DecrementSucceedsIff`).
- `generarDetalleId` reads the number from the latest detail row's
  `idventa` field. That field holds the sale identifier, not the row's own
  `idDetalleVenta`. So the next sale's detail keys restart from the sale
  number and can repeat existing keys (`Identifiers.DetailIdReusesNumber`).
- With an empty detail table every line gets `DV0001`. The model assumes
  that `idVenta` and `idDetalleVenta` are unique primary keys. The
  migrations of `venta` and `detalle_venta` are not part of this model;
  the assumption follows `find($id)`, which looks a sale up by its key,
  and the `empresa` migration
  (`database/migrations2/2024_10_18_231332_create_empresa_table.php`),
  which declares `idEmpresa` as `string(6)->primary()`. Under that assumption, a first sale with two
  or more lines hits a duplicate key and is answered with the 500 error
  after a rollback (`SaleCreation.FirstMultiLineSaleFails`).
- The `venta` row has two client columns, `idCliente_juridico` and
  `idCliente_natural`. The insert fills every one whose table holds the
  request's client identifier and leaves the other null. A sale therefore
  carries both references exactly when both tables hold the identifier
  (`SaleCreation.ClientReferenceExclusive`).
- `meses` has no `nullable` rule. A `meses` sent as null, or as a blank
  string that Laravel's default middleware turns into null, fails the
  `integer` rule even on a cash sale (`Validation.NullMonthsRejected`).
  Only an absent `meses` passes on a cash sale.
- The first loop of `store` iterates by reference and never unsets the
  reference, so the second loop gives the last detail row of a sale with
  two or more lines the data of the line before it (see "## Findings").
- The insert in `store` does not set `idSucursal`. The model records it as
  `None`. `getVentas` compares a non-admin caller's sales with their
  department's `idSucursal`, and Laravel turns a null value into
  `whereNull`. So a caller whose department has a branch never sees the
  sales `store` created for them, and a caller whose department has none
  sees exactly those (`SaleCreation.CreatedSaleVisibleIff`).

## Model

| member | source | states |
|---|---|---|
| Identifiers.NextSaleId | app/Http/Controllers/VentaController.php:257-277 | With no sale yet the identifier is VT0001; otherwise it starts with VT and is at least six characters long |
| Identifiers.NextSaleIdIncrements | app/Http/Controllers/VentaController.php:267-273 | The new sale identifier is VT followed by the latest identifier's number plus one, zero-padded to at least four digits, and it reads back as that number |
| Identifiers.FormatShape | app/Http/Controllers/VentaController.php:273 | An identifier is the prefix, then zero fill, then the full decimal text of the number: padded to four characters, never cut short |
| Identifiers.NextDetailId | app/Http/Controllers/VentaController.php:279-299 | With an empty detail table the identifier is DV0001 for every position; otherwise it starts with DV and is at least six characters long |
| Identifiers.DetailIdsDistinct | app/Http/Controllers/VentaController.php:289-295 | Once a detail row exists, different positions within one sale get different detail identifiers |
| Identifiers.NextDetailIdOffset | app/Http/Controllers/VentaController.php:289-295 | The detail identifier at position i reads back as the latest row's number plus one plus i |
| Identifiers.NextDetailIdIgnoresOwnId | app/Http/Controllers/VentaController.php:282-289 | The detail identifier depends on the latest detail row only through its sale reference (idventa) |
| Identifiers.DetailIdReusesNumber | app/Http/Controllers/VentaController.php:282-295 | After sale VT0002 whose detail rows reached DV0005, the next first detail identifier is DV0003 again |
| Identifiers.FirstDetailIdsCollide | app/Http/Controllers/VentaController.php:284-286 | With an empty detail table every position gets the same identifier DV0001 |
| PhpStrings.PadRoundTrip | app/Http/Controllers/VentaController.php:267-273 | intval reads back exactly the non-negative number that str_pad wrote, whatever its length |
| PhpStrings.PadLeftShape | app/Http/Controllers/VentaController.php:273 | str_pad with STR_PAD_LEFT fills with the pad character up to the width and keeps a longer input whole |
| PhpStrings.NatToStringValue | app/Http/Controllers/VentaController.php:273 | The decimal text PHP writes for a non-negative integer reads back as that integer |
| PhpStrings.PadLeftInjective | app/Http/Controllers/VentaController.php:273 | Zero-padding never maps two different integer texts to the same string |
| PhpStrings.IntVal | app/Http/Controllers/VentaController.php:267 | intval reads 0 from a text that starts with anything but whitespace, a sign or a digit, as it does from the VT or DV prefix itself |
| PhpStrings.DigitsIntVal | app/Http/Controllers/VentaController.php:267 | On a non-empty string of digits, intval is plain decimal reading, leading zeros included |
| Validation.Validate | app/Http/Controllers/VentaController.php:43-70 | A rejected request reports a non-empty set of failing fields; an accepted one keeps the client, the terms (months only on credit) and every line's product, quantity and price, with known client and products, quantities of at least 1 and prices of at least 0.01 |
| Validation.ValidateAcceptsIff | app/Http/Controllers/VentaController.php:43-70 | A request passes validation exactly when the client is in one of the two client tables, tipo is Crédito or Contado, meses is present on a credit sale, any meses sent is an integer of at least 1 (null and blank included, so a null meses fails even on a cash sale), detalles is non-empty, and every line has an existing product, an integer quantity of at least 1 and a numeric price of at least 0.01 |
| Validation.NullMonthsRejected | app/Http/Controllers/VentaController.php:55 | A meses sent as null or blank is reported as failing whatever tipo says, and such a request is never acceptable |
| Validation.LineFaultReported | app/Http/Controllers/VentaController.php:57-66 | A line's product, quantity or price fails its rule exactly when that line's field is among the reported errors |
| Stock.Decrement | app/Http/Controllers/VentaController.php:79-96 | The loop either keeps the set of products or stops naming the product of one of the lines |
| Stock.DecrementSucceedsIff | app/Http/Controllers/VentaController.php:79-96 | The loop gets through every line exactly when each requested product's total quantity over all its lines is at most its stock |
| Stock.DecrementLeaves | app/Http/Controllers/VentaController.php:93-96 | After the loop each product's stock is its old stock minus the total quantity its lines asked for |
| Stock.DecrementFailsAtFirstShortfall | app/Http/Controllers/VentaController.php:80-91 | When the loop stops it names the product of the first line whose quantity exceeds what the earlier lines left |
| Totals.LineSubtotal | app/Http/Controllers/VentaController.php:99 | A line with a non-negative quantity and price has a non-negative subtotal |
| Totals.Principal | app/Http/Controllers/VentaController.php:99-100 | The running sum of the line subtotals is non-negative when every quantity and price is |
| Totals.Tax | app/Http/Controllers/VentaController.php:106 | IVA of a positive principal is positive and less than the principal; of a zero principal it is zero |
| Totals.Total | app/Http/Controllers/VentaController.php:107 | The total is 1.14 times the principal and exceeds a positive principal |
| Totals.PrincipalLowerBound | app/Http/Controllers/VentaController.php:99-100 | The principal of validated lines is at least 0.01 per line |
| Totals.TotalIsGrossedUp | app/Http/Controllers/VentaController.php:106-107 | What the total adds to the principal is exactly the 14% IVA on it |
| SaleCreation.HttpStatus | app/Http/Controllers/VentaController.php:84-149 | A created sale answers 200, a validation or stock error answers 422, and a rolled-back exception answers 500, each exactly |
| SaleCreation.NewSale | app/Http/Controllers/VentaController.php:110-123 | The sale row's total is its principal plus IVA, IVA is 14% of the principal, and meses is set exactly on credit |
| SaleCreation.DetailKeysDistinctIff | app/Http/Controllers/VentaController.php:128-130 | The keys generarDetalleId hands one sale's lines are pairwise distinct exactly when some detail row already exists or there is at most one line; with no detail row every key is DV0001 |
| SaleCreation.NewDetails | app/Http/Controllers/VentaController.php:125-136 | The intended loop builds one row per line, and their subtotals add up to the principal |
| SaleCreation.AliasedRows | app/Http/Controllers/VentaController.php:79-136 | The loop as PHP runs it builds one row per remaining position, each under that position's key and pointing at the new sale |
| SaleCreation.DetailRowsKeys | app/Http/Controllers/VentaController.php:128-136 | Whichever loop runs, row i has the i-th key and the new sale's identifier |
| SaleCreation.AsWrittenRows | app/Http/Controllers/VentaController.php:79-136 | Row i carries line i's data, except that the last of two or more rows carries the data of the line before it |
| SaleCreation.AsWrittenIsIntendedIff | app/Http/Controllers/VentaController.php:79-136 | The rows PHP builds equal the intended ones exactly when there are fewer than two lines or the last two lines have the same product, quantity and subtotal |
| SaleCreation.AsWrittenSubtotalSum | app/Http/Controllers/VentaController.php:99-136 | The subtotals of the rows PHP builds add up to the principal with the last line's subtotal swapped for the one before it |
| SaleCreation.LastRowRepeatsPrevious | app/Http/Controllers/VentaController.php:79-136 | Lines A 2 x 10.00 and B 1 x 5.00 give two rows for 2 x A at 20.00 and none for B; their subtotals add up to 40.00 against a principal of 25.00 |
| SaleCreation.SubtotalSumIsPrincipal | app/Http/Controllers/VentaController.php:99-100 | Rows that carry the lines' subtotals position by position add up to the principal |
| SaleCreation.Store | app/Http/Controllers/VentaController.php:40-151 | Any answer other than success leaves the database unchanged; a success keeps the client tables and product set, and appends one sale and keeps the existing sale and detail rows |
| SaleCreation.StoreCreatedIff | app/Http/Controllers/VentaController.php:72-146 | A validated request is created exactly when each product's total demand fits its stock, the next sale key is new, no detail key is taken, and a detail row already exists or the sale has one line |
| SaleCreation.FreshKeysIff | app/Http/Controllers/VentaController.php:128-139 | One sale's detail rows get fresh, distinct keys exactly when none of generarDetalleId's keys is taken and some detail row exists or there is at most one line |
| SaleCreation.StoreRejectsInvalid | app/Http/Controllers/VentaController.php:43-70 | The validation error comes back exactly for requests that are not acceptable (a null or blank meses included), with a non-empty set of failing fields and no change |
| SaleCreation.StoreOutOfStock | app/Http/Controllers/VentaController.php:79-91 | An accepted request gets the stock error exactly when some product's total demand exceeds its stock; the error names the first short line's product and nothing is committed |
| SaleCreation.StoreConservesStock | app/Http/Controllers/VentaController.php:79-96 | A created sale lowers every product by the sum of its lines' quantities, leaves no requested product below zero and leaves other products alone |
| SaleCreation.StoreInsertsSale | app/Http/Controllers/VentaController.php:106-123 | The new sale row has the next sale identifier (new to the table), tipo 1 exactly for Crédito, meses only on credit, estado 1, the caller and time, no branch, a client reference exactly in the tables that hold the client, the principal as the sum of line subtotals, IVA as 14% of it and total as 1.14 times it |
| SaleCreation.ClientReferenceExclusive | app/Http/Controllers/VentaController.php:120-121 | Both client references are set exactly when the client identifier is in both client tables |
| SaleCreation.CreatedSaleVisibleIff | app/Http/Controllers/VentaController.php:111-123 | The sale store creates (no idSucursal) is in its non-admin creator's unfiltered getVentas listing exactly when the creator's department has a null branch |
| SaleCreation.StoreInsertsDetailsAsWritten | app/Http/Controllers/VentaController.php:79-139 | A created sale adds one detail row per line under pairwise distinct keys new to the table and the new sale's identifier; each row has the product, quantity and subtotal of its own line, except that the last of two or more has those of the line before it, so the subtotals add up to the principal with the last line's subtotal swapped for the previous one's |
| SaleCreation.StoreInsertsDetails | app/Http/Controllers/VentaController.php:125-139 | With the intended loop, a created sale adds one detail row per line, in order, with the line's product and quantity, quantity times price as subtotal, the new sale's identifier, and keys that are distinct and new; the subtotals add up to the sale's principal |
| SaleCreation.FirstMultiLineSaleFails | app/Http/Controllers/VentaController.php:128-149 | With an empty detail table, a valid and stocked sale of two or more lines ends in the 500 answer with nothing changed |
| SaleCreation.StoreFailsOnlyOnKeyClash | app/Http/Controllers/VentaController.php:109-149 | Once a detail row exists, a valid and stocked sale fails exactly when its sale key or one of its detail keys is already taken |
| SaleCreation.TwoLineExample | app/Http/Controllers/VentaController.php:79-139 | After sale VT0001 with detail DV0001, 2 x 10.00 of A and 1 x 5.00 of B give sale VT0002 with principal 25.00, IVA 3.50 and total 28.50, lower A by 2 and B by 1, and add DV0002 and DV0003, both for 2 x A at 20.00 |
| Listing.Select | app/Http/Controllers/VentaController.php:316-330 | The filtered rows are exactly the table rows that pass the scope, type and client filters, each exactly as often as in the table |
| Listing.SortByDate | app/Http/Controllers/VentaController.php:313-314 | Ordering returns the same rows (as a multiset) newest first |
| Listing.ListSales | app/Http/Controllers/VentaController.php:301-334 | The 400 error comes back exactly when a token is outside its allow-list; otherwise the rows are newest first |
| Listing.ListSalesExact | app/Http/Controllers/VentaController.php:312-333 | A listing holds exactly the table's sales that pass the filters, each exactly as often as in the table, and nothing else |
| Listing.NonAdminSeesOwnBranch | app/Http/Controllers/VentaController.php:316-320 | A caller who is not admin only sees sales of their own employee and of their department's branch, null included: with a null branch only sales without one |
| Listing.BranchlessSaleVisibleIff | app/Http/Controllers/VentaController.php:316-320 | A sale without a branch is listed for its own non-admin employee exactly when that employee's department has a null branch too |
| Listing.TokensFilterAsNamed | app/Http/Controllers/VentaController.php:322-330 | v-contado lists only tipo 0, v-credito only tipo 1, c-natural only sales with a natural client, c-juridico only sales with a legal client |
| Listing.AdminUnfilteredListsAll | app/Http/Controllers/VentaController.php:312-333 | The admin with v-todas and c-todos gets every sale of the table |
| Status.Disable | app/Http/Controllers/VentaController.php:231-242 | baja fails exactly for an identifier with no sale; otherwise every sale with that identifier gets status 0 and the others keep theirs |
| Status.Enable | app/Http/Controllers/VentaController.php:244-255 | alta fails exactly for an identifier with no sale; otherwise every sale with that identifier gets status 1 and the others keep theirs |
| Status.Toggle | app/Http/Controllers/VentaController.php:231-255 | An unknown identifier is an error; otherwise only the status of the matching sales changes, to the requested value |
| Status.DisableOnlyTouchesStatus | app/Http/Controllers/VentaController.php:231-242 | baja sets the matching sale's status to 0 and leaves every other row, field and table as it was |
| Status.DisableIdempotent | app/Http/Controllers/VentaController.php:231-242 | Disabling twice is the same as disabling once |
| Status.EnableUndoesDisable | app/Http/Controllers/VentaController.php:244-255 | alta after baja of an active sale restores the database exactly |
| Status.UnknownSaleRejected | app/Http/Controllers/VentaController.php:233-247 | baja and alta of an identifier with no sale are errors |

## Findings

| source | as written | input that shows it | evidently intended | confidence | as-written member | corrected member |
|---|---|---|---|---|---|---|
| app/Http/Controllers/VentaController.php:79-136 | The first loop is `foreach ($detalles as &$detalle)` and the reference is never unset, so each pass of the second loop writes its element into the last slot; the last of two or more detail rows gets the previous line's `cantidad`, `subtotal` and `idProducto` | A sale after VT0001/DV0001 with lines A 2 x 10.00 and B 1 x 5.00: rows DV0002 and DV0003 are both A 2 x 20.00, no row for B although B's stock drops, subtotals 40.00 against `SaldoCapital` 25.00 | One detail row per line with that line's own data, subtotals adding up to `SaldoCapital` | high; not executed | SaleCreation.LastRowRepeatsPrevious | SaleCreation.StoreInsertsDetails |

## Left out

- Transactions, isolation and concurrent requests: one request is one atomic step. The race between two allocators reading the same latest identifier is outside the model.
- How `latest('idVenta')` and `latest('idDetalleVenta')` pick the latest row: the model takes that row as an input.
- `Auth::user()` and `now()`: the model takes them as inputs (`Context`, `User`).
- `uniqid()` in the stock loop: it is random, and its value is overwritten before the insert.
- Floating point: money is an exact real and the 14% rate is exact. PHP float rounding is not modelled.
- Laravel's type juggling: request values are abstracted to `Scalar` (absent, null, integer literal, other numeric, non-numeric). A blank string counts as null, as Laravel's default `ConvertEmptyStringsToNull` middleware makes it; an application without that middleware is not modelled. Error message texts are not modelled.
- Validation failures: `$request->validate` answers 422 with the failing fields only when the request expects JSON (an XHR request or `Accept: application/json`); a plain form post is redirected back with the errors in the session. The model takes the request to expect JSON, as every other answer of `store` is JSON.
- `detalles` is taken to be a list indexed 0 to n-1, as a JSON array is. The code passes the array key `$i` to `generarDetalleId($i)` and Laravel names errors `detalles.<key>.*`; a form-encoded request with other keys (say 0 and 2) would get other key offsets, and that is not modelled.
- Without unique keys on `venta` and `detalle_venta` the duplicate-key error does not happen: a first sale with two or more lines would be created with duplicate `DV0001` rows. The model assumes unique keys.
- SaleCreation.Store: its own contract states only the frame (what stays unchanged on every answer). The stock, the sale row and the detail rows of a created sale are stated by StoreConservesStock, StoreInsertsSale, StoreInsertsDetailsAsWritten and StoreInsertsDetails.
- Client and product lookups compare identifiers exactly. Database collation is not modelled.
- Column widths: a fifth digit (`VT10000`) would not fit a six-character column. The migration of `venta` is not part of this model.
- The default of the `idSucursal` column: the insert does not set it, and the model records `None`.
- Eloquent timestamps that `save()` may touch in `baja`/`alta`: the `Venta` model class is not part of this model.
- PhpStrings.IntVal: exponent notation (`"1e3"`) and saturation at `PHP_INT_MAX` are not modelled. Only whitespace, a sign and leading digits are read.
- Identifiers.NextSaleIdIncrements: stated only when the latest number plus one is non-negative. A negative number puts its sign inside the zero fill (`VT00-4`), and that text does not read back.
- Identifiers.NextDetailIdOffset: stated only for a non-negative latest number plus one, for the same reason.
- Listing.SortByDate: SQL leaves the order of sales with equal `fecha` unspecified. The model's sort keeps one fixed order, and its contract states only newest-first order and the multiset.
- `index`, `show`, `edit`: plain reads with no logic beyond `getVentas`'s scoping. `getIdVenta` returns `NextSaleId`.
- `update`, `destroy`: image-file I/O. `update` also writes fields (`nombre`, `idCategoria`) that a sale never gets elsewhere.
- `getClientes`, `getProductos`: SQL `LIKE` matching, `ROUND`, `IFNULL` and aggregate subqueries run in the database.
- `pdf`: a stored procedure, PDF rendering and base64 output.
- The user's branch (`empleado->departamento->idSucursal`) is taken as given, null included. An employee without a department is not modelled: PHP would fail reading a property of null.
