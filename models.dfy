// The record shapes of the billing ledger: one datatype per table row.
// Every monetary column is a fixed-point decimal with two places, so it is
// held exactly as a whole number of cents.

module Models {

  datatype Option<T> = None | Some(value: T)
  {
    function GetOr(default: T): T
    {
      match this
      case Some(v) => v
      case None => default
    }
  }

  /** Why a handler stops without completing its normal path. */
  datatype Error =
    | NotFound           // a get_or_404 lookup missed (HTTP 404)
    | Forbidden          // admin_required turned the caller away
    | UsernameTaken      // create_user found the name already in use
    | CannotDeleteSelf   // delete_user was asked to delete the caller
    | IntegrityError     // a unique column would be duplicated at commit
    | MissingSubscriber  // add_payment recomputed the debt of a subscriber that does not exist
    | InvalidFilter      // the order search built a WHERE clause that is not an SQL expression
    | UnknownColumn      // a handler named a Subscriber attribute the mapping does not declare

  datatype Result<T> = Ok(value: T) | Err(error: Error)

  /** A monetary amount in cents (Numeric(12, 2) and Numeric(10, 2) columns). */
  type Cents = int

  /** A DateTime column value, in microseconds since a fixed epoch. */
  type Timestamp = int

  const MicrosPerSecond: int := 1_000_000
  const SecondsPerDay: int := 86_400
  const MicrosPerDay: int := SecondsPerDay * MicrosPerSecond

  datatype User = User(id: int, username: string, passwordHash: string, role: string, createdAt: Timestamp)

  /** `clientType` is 'legal' (shops) or 'individual' (households); the code only ever compares against 'legal'. */
  datatype Subscriber = Subscriber(
    id: int,
    fullName: string,
    clientType: string,
    address: string,
    debt: Cents,
    createdAt: Timestamp,
    promoStartDate: Option<Timestamp>,
    promoCustomLimit: Option<int>)

  /** Every phone, order and payment row points at exactly one subscriber. */
  datatype Phone = Phone(id: int, subscriberId: int, number: string)

  datatype Order = Order(
    id: int,
    subscriberId: int,
    userId: int,
    newBottles: int,
    exchangeBottles: int,
    waterOnly: int,
    freeBottles: int,
    totalAmount: Cents,
    paidAmount: Cents,
    isFree: bool,
    createdAt: Timestamp)

  datatype Payment = Payment(id: int, subscriberId: int, userId: int, amount: Cents, createdAt: Timestamp)

  /** One catalog row; `operationType` is unique across the table. */
  datatype Price = Price(id: int, operationType: string, legalPrice: Cents, individualPrice: Cents)

  /** The settings table: `key` is the primary key; `value` is a nullable column. */
  type Settings = map<string, Option<string>>

  // Key and owner projections, passed to the generic table functions of Store.
  function UserId(u: User): int { u.id }
  function SubscriberId(s: Subscriber): int { s.id }
  function OrderId(o: Order): int { o.id }
  function OrderOwner(o: Order): int { o.subscriberId }
  function PaymentOwner(p: Payment): int { p.subscriberId }
  function PhoneOwner(p: Phone): int { p.subscriberId }

  // Summed columns, passed to Store.SumOf.
  function TotalOf(o: Order): Cents { o.totalAmount }
  function PaidOf(o: Order): Cents { o.paidAmount }
  function NewOf(o: Order): int { o.newBottles }
  function ExchangeOf(o: Order): int { o.exchangeBottles }
  function FreeOf(o: Order): int { o.freeBottles }
  function AmountOf(p: Payment): Cents { p.amount }
}
