/**
 * The validation `store` runs before it touches the database: Laravel's
 * rules for `idCliente`, `tipo`, `meses` and `detalles.*`, plus the two
 * closures that look the client and each product up. A failing rule is
 * reported by the name of the field it guards; a request that passes is
 * turned into a typed sale.
 */
module Validation {
  import opened Wrappers
  import opened Schema

  /**
   * A request value as the `integer`, `numeric` and `min` rules classify
   * it. `Absent` is a key the request does not send at all; `Null` is a key
   * sent with null or with a blank string, which Laravel's default
   * `ConvertEmptyStringsToNull` middleware turns into null. A rule other
   * than `required`/`required_if` skips an absent key but still runs on a
   * null one, since none of these fields is `nullable`.
   */
  datatype Scalar =
    | Absent
    | Null
    | IntLit(n: int)      // passes `integer`, and so `numeric`
    | NumLit(x: real)     // passes `numeric` but not `integer`, such as "2.50"
    | NonNumeric          // any other text

  /** One element of `detalles`. */
  datatype LineInput = LineInput(product: Option<string>, quantity: Scalar, price: Scalar)

  /** The fields of the sale request; `lines` is `None` when `detalles` is absent or not an array. */
  datatype SaleRequest = SaleRequest(
    client: Option<string>,
    kind: Option<string>,
    months: Scalar,
    lines: Option<seq<LineInput>>
  )

  /** The field a failing rule is reported under; line fields carry the line's position. */
  datatype Field =
    | ClientField
    | KindField
    | MonthsField
    | LinesField
    | ProductField(line: nat)
    | QuantityField(line: nat)
    | PriceField(line: nat)

  /** Payment terms after validation: a credit sale carries its number of months. */
  datatype Terms = Cash | Credit(months: int)

  /** A validated line: an existing product, a positive quantity and a price of at least one cent. */
  datatype Line = Line(product: string, quantity: nat, price: real)

  datatype ValidSale = ValidSale(client: string, terms: Terms, lines: seq<Line>)

  const CreditToken: string := "Crédito"
  const CashToken: string := "Contado"
  const MinPrice: real := 0.01

  // ---------------------------------------------------------------------
  // The rules, one per field
  // ---------------------------------------------------------------------

  /** `required` plus the closure that looks the identifier up in both client tables. */
  predicate ClientOk(req: SaleRequest, db: Db) {
    req.client.Some? && (req.client.value in db.legalClients || req.client.value in db.naturalClients)
  }

  /** `required|in:Crédito,Contado`. */
  predicate KindOk(req: SaleRequest) {
    req.kind == Some(CreditToken) || req.kind == Some(CashToken)
  }

  /**
   * `required_if:tipo,Crédito|integer|min:1`: an absent value is an error
   * only for a credit sale, but a value that is present, null included,
   * must be an integer of at least one whatever the payment type.
   */
  predicate MonthsOk(req: SaleRequest) {
    match req.months
    case Absent => req.kind != Some(CreditToken)
    case IntLit(n) => n >= 1
    case _ => false
  }

  /** `required|array|min:1`. */
  predicate LinesOk(req: SaleRequest) {
    req.lines.Some? && |req.lines.value| >= 1
  }

  /** `required` plus the closure that looks the product up. */
  predicate ProductOk(l: LineInput, db: Db) {
    l.product.Some? && l.product.value in db.stock
  }

  /** `required|integer|min:1`. */
  predicate QuantityOk(l: LineInput) {
    l.quantity.IntLit? && l.quantity.n >= 1
  }

  /** `required|numeric|min:0.01`. */
  predicate PriceOk(l: LineInput) {
    match l.price
    case IntLit(n) => n as real >= MinPrice
    case NumLit(x) => x >= MinPrice
    case _ => false
  }

  function LineErrors(lines: seq<LineInput>, db: Db): set<Field> {
    (set i | 0 <= i < |lines| && !ProductOk(lines[i], db) :: ProductField(i))
    + (set i | 0 <= i < |lines| && !QuantityOk(lines[i]) :: QuantityField(i))
    + (set i | 0 <= i < |lines| && !PriceOk(lines[i]) :: PriceField(i))
  }

  /** Every field whose rules fail. */
  function Errors(req: SaleRequest, db: Db): set<Field> {
    (if ClientOk(req, db) then {} else {ClientField})
    + (if KindOk(req) then {} else {KindField})
    + (if MonthsOk(req) then {} else {MonthsField})
    + (if LinesOk(req) then {} else {LinesField})
    + (if req.lines.Some? then LineErrors(req.lines.value, db) else {})
  }

  // ---------------------------------------------------------------------
  // Turning an accepted request into a typed sale
  // ---------------------------------------------------------------------

  /** The number a value denotes, if `numeric` accepts it. */
  function NumericValue(s: Scalar): Option<real> {
    match s
    case IntLit(n) => Some(n as real)
    case NumLit(x) => Some(x)
    case _ => None
  }

  function ParseLine(l: LineInput): (r: Line)
    requires l.product.Some? && QuantityOk(l) && PriceOk(l)
  {
    Line(l.product.value, l.quantity.n, if l.price.IntLit? then l.price.n as real else l.price.x)
  }

  function ParseLines(ls: seq<LineInput>): (r: seq<Line>)
    requires forall i :: 0 <= i < |ls| ==> ls[i].product.Some? && QuantityOk(ls[i]) && PriceOk(ls[i])
    ensures |r| == |ls|
    ensures forall i :: 0 <= i < |ls| ==> r[i] == ParseLine(ls[i])
  {
    if |ls| == 0 then [] else [ParseLine(ls[0])] + ParseLines(ls[1..])
  }

  /** A validated sale whose lines all name existing products, positive quantities and prices of at least one cent. */
  predicate WellFormed(v: ValidSale, db: Db) {
    && (v.client in db.legalClients || v.client in db.naturalClients)
    && (v.terms.Credit? ==> v.terms.months >= 1)
    && |v.lines| >= 1
    && forall i :: 0 <= i < |v.lines| ==>
         v.lines[i].product in db.stock && v.lines[i].quantity >= 1 && v.lines[i].price >= MinPrice
  }

  /**
   * The validation step of `store`: the set of failing fields, or the
   * request read as a typed sale. The sale keeps the request's client, its
   * payment terms (months only for a credit sale) and its lines in order.
   */
  function Validate(req: SaleRequest, db: Db): (r: Result<ValidSale, set<Field>>)
    ensures r.Failure? ==> r.error != {} && r.error == Errors(req, db)
    ensures r.Success? ==> Errors(req, db) == {} && WellFormed(r.value, db)
    ensures r.Success? ==>
      && req.client == Some(r.value.client)
      && (r.value.terms.Credit? <==> req.kind == Some(CreditToken))
      && (r.value.terms.Credit? ==> req.months == IntLit(r.value.terms.months))
      && req.lines.Some? && |r.value.lines| == |req.lines.value|
      && forall i :: 0 <= i < |r.value.lines| ==>
           && req.lines.value[i].product == Some(r.value.lines[i].product)
           && req.lines.value[i].quantity == IntLit(r.value.lines[i].quantity)
           && NumericValue(req.lines.value[i].price) == Some(r.value.lines[i].price)
  {
    var errs := Errors(req, db);
    if errs != {} then Failure(errs)
    else
      var ls := req.lines.value;
      assert forall i :: 0 <= i < |ls| ==> ProductOk(ls[i], db) && QuantityOk(ls[i]) && PriceOk(ls[i]) by {
        forall i | 0 <= i < |ls|
          ensures ProductOk(ls[i], db) && QuantityOk(ls[i]) && PriceOk(ls[i])
        {
          assert ProductField(i) !in errs && QuantityField(i) !in errs && PriceField(i) !in errs;
        }
      }
      var terms := if req.kind == Some(CreditToken) then Credit(req.months.n) else Cash;
      Success(ValidSale(req.client.value, terms, ParseLines(ls)))
  }

  // ---------------------------------------------------------------------
  // The acceptance condition stated directly
  // ---------------------------------------------------------------------

  /**
   * When `store` gets past validation, written as one condition on the raw
   * request: a known client, a recognised payment type, a month count of at
   * least one whenever the key is sent (even as null) or the sale is on
   * credit, and a
   * non-empty list of lines with existing products, whole quantities of at
   * least one and numeric prices of at least one cent.
   */
  predicate Acceptable(req: SaleRequest, db: Db) {
    && req.client.Some?
    && (req.client.value in db.legalClients || req.client.value in db.naturalClients)
    && (req.kind == Some(CreditToken) || req.kind == Some(CashToken))
    && (req.kind == Some(CreditToken) ==> req.months != Absent)
    && (req.months != Absent ==> req.months.IntLit? && req.months.n >= 1)
    && req.lines.Some? && req.lines.value != []
    && forall l :: l in req.lines.value ==>
         && l.product.Some? && l.product.value in db.stock
         && l.quantity.IntLit? && l.quantity.n >= 1
         && (l.price.IntLit? || l.price.NumLit?)
         && (if l.price.IntLit? then l.price.n as real else l.price.x) >= MinPrice
  }

  /** Validation lets a request through exactly when it is acceptable. */
  lemma ValidateAcceptsIff(req: SaleRequest, db: Db)
    ensures Validate(req, db).Success? <==> Acceptable(req, db)
  {
    if Acceptable(req, db) {
      var ls := req.lines.value;
      forall i | 0 <= i < |ls|
        ensures ProductOk(ls[i], db) && QuantityOk(ls[i]) && PriceOk(ls[i])
      {
        assert ls[i] in ls;
      }
      assert LineErrors(ls, db) == {};
    } else if Validate(req, db).Success? {
      var ls := req.lines.value;
      forall l | l in ls
        ensures ProductOk(l, db) && QuantityOk(l) && PriceOk(l)
      {
        var i :| 0 <= i < |ls| && ls[i] == l;
        assert ProductField(i) !in Errors(req, db);
        assert QuantityField(i) !in Errors(req, db);
        assert PriceField(i) !in Errors(req, db);
      }
    }
  }

  /** A line that breaks a rule is reported under that line's own field. */
  lemma LineFaultReported(req: SaleRequest, db: Db, i: nat)
    requires req.lines.Some? && i < |req.lines.value|
    ensures var r := Validate(req, db);
      && (!ProductOk(req.lines.value[i], db) <==> r.Failure? && ProductField(i) in r.error)
      && (!QuantityOk(req.lines.value[i]) <==> r.Failure? && QuantityField(i) in r.error)
      && (!PriceOk(req.lines.value[i]) <==> r.Failure? && PriceField(i) in r.error)
  {
  }

  /**
   * `meses` sent as null or blank is refused whatever the payment type: on
   * a credit sale by `required_if`, on a cash sale by `integer`.
   */
  lemma NullMonthsRejected(req: SaleRequest, db: Db)
    requires req.months == Null
    ensures Validate(req, db).Failure? && MonthsField in Validate(req, db).error
    ensures !Acceptable(req, db)
  {
    assert MonthsField in Errors(req, db);
  }
}
