/**
 * The rows the sale workflow reads and writes, and the part of the
 * database it touches. Identifiers are the application's string keys
 * (`VT0001`, `DV0001`, client and product codes); money is an exact real.
 */
module Schema {
  import opened Wrappers

  /** A row of the `venta` table as `store` inserts it. */
  datatype Sale = Sale(
    id: string,                     // idVenta
    date: int,                      // fecha, as a timestamp
    kind: int,                      // tipo: 1 credit, 0 cash
    months: Option<int>,            // meses, null for a cash sale
    principal: real,                // SaldoCapital
    tax: real,                      // iva
    total: real,                    // total
    employee: string,               // idEmpleado
    branch: Option<string>,         // idSucursal
    legalClient: Option<string>,    // idCliente_juridico
    naturalClient: Option<string>,  // idCliente_natural
    status: int                     // estado: 1 active, 0 disabled
  )

  /** A row of the `detalle_venta` table. */
  datatype DetailRow = DetailRow(
    id: string,         // idDetalleVenta
    quantity: int,      // cantidad
    subtotal: real,     // subtotal
    product: string,    // idProducto
    saleId: string      // idventa, the owning sale
  )

  /**
   * The database as the sale workflow sees it: current stock per existing
   * product (its keys are the `producto` table), the identifiers of the two
   * client tables, and the sale and detail tables.
   */
  datatype Db = Db(
    stock: map<string, int>,
    legalClients: set<string>,
    naturalClients: set<string>,
    sales: seq<Sale>,
    details: seq<DetailRow>
  )

  function SaleIds(sales: seq<Sale>): set<string> {
    set i | 0 <= i < |sales| :: sales[i].id
  }

  function DetailIds(details: seq<DetailRow>): set<string> {
    set i | 0 <= i < |details| :: details[i].id
  }
}
