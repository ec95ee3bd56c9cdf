/** Shared vocabulary of the service layer: optional values, the error a
    service raises, and the enumerations of the Prisma schema. */
module Common {

  datatype Option<+T> = None | Some(value: T)

  /** What a service operation either returns or throws. */
  datatype Result<+T> = Ok(value: T) | Err(error: Error)

  /** An error raised with `createError(message, status)`, or an exception a
      collaborator throws (a JWT verification error, a store failure), which
      keeps its own class name and has no status of its own. */
  datatype Error = HttpError(status: int, message: string) | Thrown(name: string)

  /** The store's refusal of a write: the row to update does not exist, or a
      new row names an owner that does not exist. */
  const StoreRequestError: Error := Thrown("PrismaClientKnownRequestError")

  /** A successful response body: its message and its payload. */
  datatype Reply<+T> = Reply(message: string, data: T)

  type byte = x: int | 0 <= x < 256

  /** Thirty-two bytes: a SHA-256 digest, or the output of `randomBytes(32)`. */
  type Bytes32 = s: seq<byte> | |s| == 32
    witness [0, 0, 0, 0, 0, 0, 0, 0, 0, 0, 0, 0, 0, 0, 0, 0,
             0, 0, 0, 0, 0, 0, 0, 0, 0, 0, 0, 0, 0, 0, 0, 0]

  /** Order status. The enumeration is declared in the Prisma schema, which is
      not part of this model; these five values, PENDING being the default, are
      the ones the services and validators name. */
  datatype OrderStatus = Pending | Confirmed | Shipped | Delivered | Cancelled

  datatype KycStatus = KycPending | KycApproved | KycRejected

  datatype NotificationStatus = Sent | Failed

  /** The wire name of a status, as `z.enum(OrderStatus)` accepts it. */
  function StatusName(s: OrderStatus): string
  {
    match s
    case Pending => "PENDING"
    case Confirmed => "CONFIRMED"
    case Shipped => "SHIPPED"
    case Delivered => "DELIVERED"
    case Cancelled => "CANCELLED"
  }

  /** The status a wire name denotes, if any. */
  function StatusNamed(name: string): (r: Option<OrderStatus>)
    ensures r.Some? ==> StatusName(r.value) == name
    ensures r.None? ==> forall s: OrderStatus :: StatusName(s) != name
  {
    if name == "PENDING" then Some(Pending)
    else if name == "CONFIRMED" then Some(Confirmed)
    else if name == "SHIPPED" then Some(Shipped)
    else if name == "DELIVERED" then Some(Delivered)
    else if name == "CANCELLED" then Some(Cancelled)
    else None
  }
}
