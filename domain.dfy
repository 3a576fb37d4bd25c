/**
 * The entities of the hardware store (clients, products, sales and their
 * line items) and the error kinds the services and repositories report.
 * Money is counted in integer cents; timestamps are opaque values.
 */
module Domain {

  /** An amount of money in cents. */
  type Money = int

  /**
   * The server-assigned creation time of a sale. Only its calendar day
   * (as SQLite's DATE() sees it) is ever inspected; the rest is opaque.
   */
  datatype Timestamp = Timestamp(utcDay: int, secondOfDay: int)

  /** A product of the inventory. */
  datatype Product = Product(id: int, nombre: string, stock: int, precio: Money)

  /** A client of the store; `cedula` is the national id. */
  datatype Client = Client(id: int, nombre: string, cedula: string, email: string)

  /** One product entry of a sale, with the unit price captured at sale time. */
  datatype SaleItem = SaleItem(productId: int, cantidad: int, precioUnitario: Money, subtotal: Money)

  /** A sale header with its items; `clientName` is filled only by the sales listing. */
  datatype Sale = Sale(id: int, clientId: int, clientName: string, fecha: Timestamp, total: Money, items: seq<SaleItem>)

  /** The error values of the system, plus an opaque category for storage failures. */
  datatype Error = NotFound | InvalidInput | Conflict | InsufficientStock | StorageFailure

  datatype Option<T> = None | Some(value: T)

  /** A value or the error that replaced it. */
  datatype Result<T> = Ok(value: T) | Err(error: Error)
}
