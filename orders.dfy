// The orders blueprint: pricing an order from the catalog, recomputing a
// subscriber's debt from the ledger, the create / delete / payment handlers,
// and the order list with its search, date filters and bottle counts.

module Orders {
  import opened Models
  import opened Text
  import opened Store

  const NewBottle: string := "new_bottle"
  const Exchange: string := "exchange"
  const WaterOnly: string := "water_only"

  // ---------------------------------------------------------------------------
  // calculate_order_total

  /** `{p.operation_type: p for p in Price.query.all()}`: a later row for the same type wins. */
  function PriceMap(rows: seq<Price>): (m: map<string, Price>)
    ensures forall k :: 0 <= k < |rows| ==> rows[k].operationType in m
    ensures forall op :: op in m ==> m[op].operationType == op && m[op] in rows
    decreases |rows|
  {
    if rows == [] then map[]
    else
      var last := rows[|rows| - 1];
      PriceMap(rows[..|rows| - 1])[last.operationType := last]
  }

  /** With unique operation types, the catalog maps each type to its one row. */
  lemma {:induction false} PriceMapUnique(rows: seq<Price>, k: nat)
    requires UniqueOperationTypes(rows) && k < |rows|
    ensures PriceMap(rows)[rows[k].operationType] == rows[k]
    decreases |rows|
  {
    var n := |rows| - 1;
    if k < n {
      var init := rows[..n];
      assert UniqueOperationTypes(init) by {
        forall i, j | 0 <= i < j < |init| ensures init[i].operationType != init[j].operationType {
          assert init[i] == rows[i] && init[j] == rows[j];
        }
      }
      PriceMapUnique(init, k);
      assert rows[k] == init[k];
      assert rows[n].operationType != rows[k].operationType;
    }
  }

  /** The unit price calculate_order_total uses when the catalog has no row for `op` (in cents). */
  function FallbackPrice(op: string, legal: bool): Cents
  {
    if op == NewBottle then (if legal then 10100 else 10500)
    else if op == Exchange then (if legal then 6100 else 6500)
    else (if legal then 1100 else 1500)
  }

  /** The unit price of `op` for a client type: 'legal' reads legal_price, every other type individual_price. */
  function UnitPrice(catalog: map<string, Price>, clientType: string, op: string): Cents
  {
    var legal := clientType == "legal";
    if op in catalog then (if legal then catalog[op].legalPrice else catalog[op].individualPrice)
    else FallbackPrice(op, legal)
  }

  /** calculate_order_total: each count times its unit price. */
  function CalculateOrderTotal(catalog: map<string, Price>, clientType: string,
                               newBottles: int, exchangeBottles: int, waterOnly: int): Cents
  {
    newBottles * UnitPrice(catalog, clientType, NewBottle)
    + exchangeBottles * UnitPrice(catalog, clientType, Exchange)
    + waterOnly * UnitPrice(catalog, clientType, WaterOnly)
  }

  /** Any client type other than 'legal' is priced as an individual. */
  lemma NonLegalPricedAsIndividual(catalog: map<string, Price>, clientType: string, n: int, e: int, w: int)
    requires clientType != "legal"
    ensures CalculateOrderTotal(catalog, clientType, n, e, w) == CalculateOrderTotal(catalog, "individual", n, e, w)
  {
  }

  /** A catalog without a row for `op` prices it at the built-in price, whatever else it holds. */
  lemma MissingRowFallsBack(rows: seq<Price>, clientType: string, op: string)
    requires forall k :: 0 <= k < |rows| ==> rows[k].operationType != op
    ensures UnitPrice(PriceMap(rows), clientType, op) == FallbackPrice(op, clientType == "legal")
  {
  }

  /** With an empty catalog the built-in prices apply: 101/61/11 for legal clients, 105/65/15 otherwise. */
  lemma FallbackTotals(clientType: string, n: int, e: int, w: int)
    ensures clientType == "legal" ==> CalculateOrderTotal(map[], clientType, n, e, w) == 10100 * n + 6100 * e + 1100 * w
    ensures clientType != "legal" ==> CalculateOrderTotal(map[], clientType, n, e, w) == 10500 * n + 6500 * e + 1500 * w
  {
  }

  /** A catalog row, when present, decides the price of its operation. */
  lemma CatalogRowsDecide(prices: seq<Price>, clientType: string, n: int, e: int, w: int, i: nat, j: nat, k: nat)
    requires UniqueOperationTypes(prices) && i < |prices| && j < |prices| && k < |prices|
    requires prices[i].operationType == NewBottle && prices[j].operationType == Exchange && prices[k].operationType == WaterOnly
    ensures clientType == "legal" ==>
      CalculateOrderTotal(PriceMap(prices), clientType, n, e, w)
      == n * prices[i].legalPrice + e * prices[j].legalPrice + w * prices[k].legalPrice
    ensures clientType != "legal" ==>
      CalculateOrderTotal(PriceMap(prices), clientType, n, e, w)
      == n * prices[i].individualPrice + e * prices[j].individualPrice + w * prices[k].individualPrice
  {
    PriceMapUnique(prices, i);
    PriceMapUnique(prices, j);
    PriceMapUnique(prices, k);
  }

  /** The total is additive in the counts: two orders cost what their combination costs. */
  lemma TotalAdditive(catalog: map<string, Price>, clientType: string, n1: int, e1: int, w1: int, n2: int, e2: int, w2: int)
    ensures CalculateOrderTotal(catalog, clientType, n1 + n2, e1 + e2, w1 + w2)
      == CalculateOrderTotal(catalog, clientType, n1, e1, w1) + CalculateOrderTotal(catalog, clientType, n2, e2, w2)
  {
    var a, b, c := UnitPrice(catalog, clientType, NewBottle), UnitPrice(catalog, clientType, Exchange), UnitPrice(catalog, clientType, WaterOnly);
    assert (n1 + n2) * a == n1 * a + n2 * a;
    assert (e1 + e2) * b == e1 * b + e2 * b;
    assert (w1 + w2) * c == w1 * c + w2 * c;
  }

  // ---------------------------------------------------------------------------
  // create: the posted form and the charge it produces

  /** The fields orders.create reads from the form (missing counts read as 0). */
  datatype OrderForm = OrderForm(
    newBottles: int,
    exchangeBottles: int,
    waterOnly: int,
    freeBottles: int,
    gapBilen: int,            // credit mode: bottle with water, always 105
    dineSuw: int,             // credit mode: water only, always 15
    paidAmount: Option<Cents>,
    isFree: bool)

  /** The columns of the order row that depend on the form. */
  datatype Charge = Charge(newBottles: int, exchangeBottles: int, waterOnly: int, freeBottles: int, total: Cents, paid: Cents)

  /** Credit mode is chosen as soon as either credit field is positive. */
  predicate IsCreditMode(f: OrderForm)
  {
    f.gapBilen > 0 || f.dineSuw > 0
  }

  const CreditBottlePrice: Cents := 10500
  const CreditWaterPrice: Cents := 1500

  /** The counts, total and paid amount orders.create stores for a form. */
  function PriceOrder(catalog: map<string, Price>, clientType: string, f: OrderForm): (c: Charge)
    ensures f.isFree ==> c.total == 0 && c.paid == 0
    ensures IsCreditMode(f) ==>
      && c.newBottles == f.gapBilen && c.waterOnly == f.dineSuw
      && c.exchangeBottles == 0 && c.freeBottles == 0
      && (!f.isFree ==> c.total == CreditBottlePrice * f.gapBilen + CreditWaterPrice * f.dineSuw && c.paid == 0)
    ensures !IsCreditMode(f) ==>
      && c.newBottles == f.newBottles && c.exchangeBottles == f.exchangeBottles
      && c.waterOnly == f.waterOnly && c.freeBottles == f.freeBottles
      && (!f.isFree ==>
            && c.total == CalculateOrderTotal(catalog, clientType, f.newBottles, f.exchangeBottles, f.waterOnly)
            && c.paid == f.paidAmount.GetOr(c.total))
  {
    var base :=
      if IsCreditMode(f) then
        Charge(f.gapBilen, 0, f.dineSuw, 0, f.gapBilen * CreditBottlePrice + f.dineSuw * CreditWaterPrice, 0)
      else
        var total := CalculateOrderTotal(catalog, clientType, f.newBottles, f.exchangeBottles, f.waterOnly);
        Charge(f.newBottles, f.exchangeBottles, f.waterOnly, f.freeBottles, total, f.paidAmount.GetOr(total));
    if f.isFree then base.(total := 0, paid := 0) else base
  }

  /** In credit mode the standard fields, the paid amount, the client type and the catalog play no part. */
  lemma CreditModeIgnoresStandardFields(catalog1: map<string, Price>, catalog2: map<string, Price>,
                                        clientType1: string, clientType2: string, f: OrderForm, g: OrderForm)
    requires IsCreditMode(f)
    requires g.gapBilen == f.gapBilen && g.dineSuw == f.dineSuw && g.isFree == f.isFree
    ensures PriceOrder(catalog1, clientType1, f) == PriceOrder(catalog2, clientType2, g)
  {
  }

  /** Free bottles are recorded but never priced. */
  lemma FreeBottlesNeverCharged(catalog: map<string, Price>, clientType: string, f: OrderForm, free: int)
    ensures PriceOrder(catalog, clientType, f.(freeBottles := free)).total == PriceOrder(catalog, clientType, f).total
  {
  }

  /** The worked example of the production tests: 1 bottle and 2 waters on credit is 135.00, nothing paid. */
  lemma CreditExample(catalog: map<string, Price>, clientType: string)
    ensures PriceOrder(catalog, clientType, OrderForm(0, 0, 0, 0, 1, 2, None, false))
      == Charge(1, 0, 2, 0, 13500, 0)
  {
  }

  /** The row orders.create inserts. */
  function OrderRow(id: int, subscriberId: int, userId: int, c: Charge, isFree: bool, now: Timestamp): Order
  {
    Order(id, subscriberId, userId, c.newBottles, c.exchangeBottles, c.waterOnly, c.freeBottles, c.total, c.paid, isFree, now)
  }

  // ---------------------------------------------------------------------------
  // recalculate_debt

  /** SUM(orders.total_amount) - SUM(payments.amount) of one subscriber. */
  function Debt(orders: seq<Order>, payments: seq<Payment>, sid: int): Cents
  {
    SumOf(OwnedBy(orders, OrderOwner, sid), TotalOf) - SumOf(OwnedBy(payments, PaymentOwner, sid), AmountOf)
  }

  lemma OwnedByAppend<T(!new)>(rows: seq<T>, x: T, owner: T -> int, sid: int)
    ensures OwnedBy(rows + [x], owner, sid) == OwnedBy(rows, owner, sid) + (if owner(x) == sid then [x] else [])
  {
    assert (rows + [x])[..|rows|] == rows;
  }

  lemma SumOfAppend<T>(rows: seq<T>, x: T, column: T -> int)
    ensures SumOf(rows + [x], column) == SumOf(rows, column) + column(x)
  {
    assert (rows + [x])[..|rows|] == rows;
  }

  /** A new order adds its total to its own subscriber's debt and to no one else's. */
  lemma DebtAfterNewOrder(orders: seq<Order>, payments: seq<Payment>, o: Order, sid: int)
    ensures Debt(orders + [o], payments, sid) == Debt(orders, payments, sid) + (if o.subscriberId == sid then o.totalAmount else 0)
  {
    OwnedByAppend(orders, o, OrderOwner, sid);
    var own := OwnedBy(orders, OrderOwner, sid);
    if o.subscriberId == sid {
      SumOfAppend(own, o, TotalOf);
    } else {
      assert own + [] == own;
    }
  }

  /** A payment takes its amount off its own subscriber's debt and off no one else's. */
  lemma DebtAfterPayment(orders: seq<Order>, payments: seq<Payment>, p: Payment, sid: int)
    ensures Debt(orders, payments + [p], sid) == Debt(orders, payments, sid) - (if p.subscriberId == sid then p.amount else 0)
  {
    OwnedByAppend(payments, p, PaymentOwner, sid);
    var own := OwnedBy(payments, PaymentOwner, sid);
    if p.subscriberId == sid {
      SumOfAppend(own, p, AmountOf);
    } else {
      assert own + [] == own;
    }
  }

  /** Deleting an order takes its total back off its subscriber's debt. */
  lemma DebtAfterOrderRemoved(orders: seq<Order>, payments: seq<Payment>, i: nat, sid: int)
    requires i < |orders|
    ensures Debt(RemoveAt(orders, i), payments, sid)
      == Debt(orders, payments, sid) - (if orders[i].subscriberId == sid then orders[i].totalAmount else 0)
  {
    var a, x, b := orders[..i], orders[i], orders[i + 1..];
    assert orders == a + [x] + b;
    assert RemoveAt(orders, i) == a + b;
    OwnedByConcat(a + [x], b, OrderOwner, sid);
    OwnedByConcat(a, b, OrderOwner, sid);
    OwnedByAppend(a, x, OrderOwner, sid);
    var oa, ob := OwnedBy(a, OrderOwner, sid), OwnedBy(b, OrderOwner, sid);
    SumOfConcat(oa, ob, TotalOf);
    if x.subscriberId == sid {
      SumOfConcat(oa + [x], ob, TotalOf);
      SumOfAppend(oa, x, TotalOf);
    } else {
      assert oa + [] == oa;
    }
  }

  /** A subscriber with no orders and no payments has a debt of zero: empty sums count as 0. */
  lemma DebtOfEmptyLedger(orders: seq<Order>, payments: seq<Payment>, sid: int)
    requires OwnedBy(orders, OrderOwner, sid) == [] && OwnedBy(payments, PaymentOwner, sid) == []
    ensures Debt(orders, payments, sid) == 0
  {
  }

  /**
   * recalculate_debt for the subscriber at position `k`: its debt column is set
   * from the ledger; nothing else changes, so a second call changes nothing.
   */
  method RecalculateDebt(db: Database, k: nat)
    requires db.Valid() && k < |db.subscribers|
    modifies db`subscribers
    ensures db.Valid()
    ensures db.subscribers == old(db.subscribers)[k := old(db.subscribers)[k].(debt := Debt(db.orders, db.payments, old(db.subscribers)[k].id))]
    ensures old(db.subscribers)[k].debt == Debt(db.orders, db.payments, old(db.subscribers)[k].id) ==> db.subscribers == old(db.subscribers)
  {
    var s := db.subscribers[k];
    var totalOrders := SumOf(OwnedBy(db.orders, OrderOwner, s.id), TotalOf);
    var totalPayments := SumOf(OwnedBy(db.payments, PaymentOwner, s.id), AmountOf);
    var updated := s.(debt := totalOrders - totalPayments);
    UpdateKeepsIds(db.subscribers, SubscriberId, k, updated);
    SubscriberUpdateKeepsOwners(db.orders, OrderOwner, db.subscribers, k, updated);
    SubscriberUpdateKeepsOwners(db.phones, PhoneOwner, db.subscribers, k, updated);
    db.subscribers := db.subscribers[k := updated];
  }

  // ---------------------------------------------------------------------------
  // create / delete / add_payment

  /** db.session.add(order) and commit: the row goes in under the next order id. */
  method InsertOrder(db: Database, order: Order)
    requires db.Valid() && order.id == db.nextOrderId
    requires IndexOf(db.subscribers, SubscriberId, order.subscriberId).Some?
    modifies db`orders, db`nextOrderId
    ensures db.Valid()
    ensures db.orders == old(db.orders) + [order] && db.nextOrderId == old(db.nextOrderId) + 1
  {
    AppendKeepsIds(db.orders, OrderId, order, db.nextOrderId);
    var orders := db.orders + [order];
    AppendKeepsOwners(db.orders, OrderOwner, db.subscribers, order);
    db.orders := orders;
    db.nextOrderId := order.id + 1;
  }

  /** Inserts `order` for subscriber row `k` and recomputes that subscriber's debt. */
  method PostOrder(db: Database, k: nat, order: Order)
    requires db.Valid() && k < |db.subscribers| && order.id == db.nextOrderId
    requires order.subscriberId == db.subscribers[k].id
    modifies db`orders, db`nextOrderId, db`subscribers
    ensures db.Valid()
    ensures db.orders == old(db.orders) + [order] && db.nextOrderId == old(db.nextOrderId) + 1
    ensures db.subscribers == old(db.subscribers)[k := old(db.subscribers)[k].(debt := Debt(db.orders, db.payments, order.subscriberId))]
    ensures db.subscribers[k].debt == Debt(old(db.orders), db.payments, order.subscriberId) + order.totalAmount
  {
    DebtAfterNewOrder(db.orders, db.payments, order, order.subscriberId);
    InsertOrder(db, order);
    RecalculateDebt(db, k);
  }

  /**
   * orders.create once the form is read: 404 for an unknown subscriber;
   * otherwise the priced order is inserted with the next id and the
   * subscriber's debt grows by exactly the order's total.
   */
  method Create(db: Database, subscriberId: int, userId: int, f: OrderForm, now: Timestamp) returns (r: Result<int>)
    requires db.Valid()
    modifies db`orders, db`nextOrderId, db`subscribers
    ensures db.Valid()
    ensures IndexOf(old(db.subscribers), SubscriberId, subscriberId).None? ==>
      && r == Err(NotFound)
      && db.orders == old(db.orders) && db.nextOrderId == old(db.nextOrderId) && db.subscribers == old(db.subscribers)
    ensures IndexOf(old(db.subscribers), SubscriberId, subscriberId).Some? ==>
      var k := IndexOf(old(db.subscribers), SubscriberId, subscriberId).value;
      var s := old(db.subscribers)[k];
      var c := PriceOrder(PriceMap(db.prices), s.clientType, f);
      && r == Ok(old(db.nextOrderId))
      && db.nextOrderId == old(db.nextOrderId) + 1
      && db.orders == old(db.orders) + [OrderRow(old(db.nextOrderId), subscriberId, userId, c, f.isFree, now)]
      && db.subscribers == old(db.subscribers)[k := s.(debt := Debt(db.orders, db.payments, subscriberId))]
      && db.subscribers[k].debt == Debt(old(db.orders), db.payments, subscriberId) + c.total
  {
    var found := IndexOf(db.subscribers, SubscriberId, subscriberId);
    if found.None? {
      return Err(NotFound);
    }
    var k := found.value;
    var s := db.subscribers[k];
    var c := PriceOrder(PriceMap(db.prices), s.clientType, f);
    var id := db.nextOrderId;
    PostOrder(db, k, OrderRow(id, subscriberId, userId, c, f.isFree, now));
    r := Ok(id);
  }

  /**
   * orders.delete: 404 for an unknown order; otherwise the row is removed and
   * its subscriber's debt falls by exactly the order's total.
   */
  method Delete(db: Database, orderId: int) returns (r: Result<()>)
    requires db.Valid()
    modifies db`orders, db`subscribers
    ensures db.Valid()
    ensures IndexOf(old(db.orders), OrderId, orderId).None? ==>
      r == Err(NotFound) && db.orders == old(db.orders) && db.subscribers == old(db.subscribers)
    ensures IndexOf(old(db.orders), OrderId, orderId).Some? ==>
      var i := IndexOf(old(db.orders), OrderId, orderId).value;
      var o := old(db.orders)[i];
      IndexOf(old(db.subscribers), SubscriberId, o.subscriberId).Some? &&
      var k := IndexOf(old(db.subscribers), SubscriberId, o.subscriberId).value;
      && r == Ok(())
      && db.orders == RemoveAt(old(db.orders), i)
      && db.subscribers == old(db.subscribers)[k := old(db.subscribers)[k].(debt := Debt(db.orders, db.payments, o.subscriberId))]
      && db.subscribers[k].debt == Debt(old(db.orders), db.payments, o.subscriberId) - o.totalAmount
  {
    var found := IndexOf(db.orders, OrderId, orderId);
    if found.None? {
      return Err(NotFound);
    }
    var i := found.value;
    var o := db.orders[i];
    OwnerExists(db.orders, OrderOwner, db.subscribers, i);
    var k := IndexOf(db.subscribers, SubscriberId, o.subscriberId).value;
    DebtAfterOrderRemoved(db.orders, db.payments, i, o.subscriberId);
    RemoveAtKeepsIds(db.orders, OrderId, i, db.nextOrderId);
    RemoveAtKeepsOwners(db.orders, OrderOwner, db.subscribers, i);
    db.orders := RemoveAt(db.orders, i);
    RecalculateDebt(db, k);
    r := Ok(());
  }

  /**
   * orders.add_payment: the payment row is inserted first; the subscriber is
   * looked up afterwards, and when it exists its debt falls by the amount.
   * When it does not, the row stays and the handler fails.
   */
  method AddPayment(db: Database, subscriberId: int, userId: int, amount: Cents, now: Timestamp) returns (r: Result<int>)
    requires db.Valid()
    modifies db`payments, db`nextPaymentId, db`subscribers
    ensures db.Valid()
    ensures db.payments == old(db.payments) + [Payment(old(db.nextPaymentId), subscriberId, userId, amount, now)]
    ensures db.nextPaymentId == old(db.nextPaymentId) + 1
    ensures IndexOf(old(db.subscribers), SubscriberId, subscriberId).None? ==>
      r == Err(MissingSubscriber) && db.subscribers == old(db.subscribers)
    ensures IndexOf(old(db.subscribers), SubscriberId, subscriberId).Some? ==>
      var k := IndexOf(old(db.subscribers), SubscriberId, subscriberId).value;
      && r == Ok(old(db.nextPaymentId))
      && db.subscribers == old(db.subscribers)[k := old(db.subscribers)[k].(debt := Debt(db.orders, db.payments, subscriberId))]
      && db.subscribers[k].debt == Debt(db.orders, old(db.payments), subscriberId) - amount
  {
    var id := db.nextPaymentId;
    var payment := Payment(id, subscriberId, userId, amount, now);
    DebtAfterPayment(db.orders, db.payments, payment, subscriberId);
    db.payments := db.payments + [payment];
    db.nextPaymentId := id + 1;
    var found := IndexOf(db.subscribers, SubscriberId, subscriberId);
    if found.None? {
      return Err(MissingSubscriber);
    }
    RecalculateDebt(db, found.value);
    r := Ok(id);
  }

  // ---------------------------------------------------------------------------
  // index: search and date filters

  /** The query arguments of the order list; `searchType` defaults to 'all', dates are day numbers. */
  datatype OrderQuery = OrderQuery(search: string, searchType: string, dateFrom: Option<int>, dateTo: Option<int>)

  /** `int(search) if search.isdigit() else -1`. */
  function SearchedId(search: string): int
  {
    if IsDigits(search) then DigitsValue(search) else -1
  }

  /** The search condition of the order list; an empty search keeps every order. */
  predicate MatchesSearch(o: Order, address: string, q: OrderQuery)
  {
    q.search == []
    || (if q.searchType == "id" then o.id == SearchedId(q.search)
        else if q.searchType == "address" then ILike(address, q.search)
        else ILike(address, q.search) || o.id == SearchedId(q.search))
  }

  /**
   * The date condition. date_from is `created_at >= midnight`. date_to as
   * written is `created_at <= 23:59:59` of that day; corrected, it keeps the
   * whole day, up to the next midnight.
   */
  predicate InDateRange(t: Timestamp, q: OrderQuery, asWritten: bool)
  {
    && (q.dateFrom.Some? ==> t >= q.dateFrom.value * MicrosPerDay)
    && (q.dateTo.Some? ==>
          if asWritten then t <= q.dateTo.value * MicrosPerDay + (SecondsPerDay - 1) * MicrosPerSecond
          else t < (q.dateTo.value + 1) * MicrosPerDay)
  }

  /** The address of an order's subscriber, when the inner join finds one. */
  function JoinedAddress(subscribers: seq<Subscriber>, o: Order): Option<string>
  {
    match IndexOf(subscribers, SubscriberId, o.subscriberId)
    case None => None
    case Some(k) => Some(subscribers[k].address)
  }

  predicate OrderMatches(subscribers: seq<Subscriber>, q: OrderQuery, asWritten: bool, o: Order)
  {
    match JoinedAddress(subscribers, o)
    case None => false
    case Some(address) => MatchesSearch(o, address, q) && InDateRange(o.createdAt, q, asWritten)
  }

  /** The matching orders in table order. */
  function Matching(orders: seq<Order>, subscribers: seq<Subscriber>, q: OrderQuery, asWritten: bool): (r: seq<Order>)
    ensures forall o :: o in r <==> o in orders && OrderMatches(subscribers, q, asWritten, o)
  {
    Select(orders, o => OrderMatches(subscribers, q, asWritten, o))
  }

  /** The order list, newest first, with the whole date_to day kept. */
  function OrderIndex(orders: seq<Order>, subscribers: seq<Subscriber>, q: OrderQuery): (r: seq<Order>)
    ensures forall o :: o in r <==> o in orders && OrderMatches(subscribers, q, false, o)
  {
    var m := Matching(orders, subscribers, q, false);
    ReverseMembers(m);
    Reverse(m)
  }

  /** The list is ordered by id, descending. */
  lemma OrderIndexNewestFirst(orders: seq<Order>, subscribers: seq<Subscriber>, q: OrderQuery)
    requires IdsIncreasing(orders, OrderId)
    ensures IdsDecreasing(OrderIndex(orders, subscribers, q), OrderId)
  {
    SelectKeepsOrder(orders, o => OrderMatches(subscribers, q, false, o), OrderId);
    ReverseOrdered(Matching(orders, subscribers, q, false), OrderId);
  }

  /**
   * The order list as orders.py writes it: for `type=id` with a non-numeric
   * search the WHERE clause is the bare literal -1, which the query refuses.
   */
  function OrderIndexAsWritten(orders: seq<Order>, subscribers: seq<Subscriber>, q: OrderQuery): (r: Result<seq<Order>>)
    ensures r.Err? <==> q.search != [] && q.searchType == "id" && !IsDigits(q.search)
    ensures r.Ok? ==> forall o :: o in r.value <==> o in orders && OrderMatches(subscribers, q, true, o)
  {
    if q.search != [] && q.searchType == "id" && !IsDigits(q.search) then Err(InvalidFilter)
    else
      var m := Matching(orders, subscribers, q, true);
      ReverseMembers(m);
      Ok(Reverse(m))
  }

  /** Finding: a non-numeric id search fails as written, and matches no order once corrected. */
  lemma IdSearchFinding(orders: seq<Order>, subscribers: seq<Subscriber>, search: string, next: int)
    requires IdsBelow(orders, OrderId, next)
    requires search != [] && !IsDigits(search)
    ensures OrderIndexAsWritten(orders, subscribers, OrderQuery(search, "id", None, None)) == Err(InvalidFilter)
    ensures OrderIndex(orders, subscribers, OrderQuery(search, "id", None, None)) == []
  {
    var q := OrderQuery(search, "id", None, None);
    forall o | o in orders ensures !OrderMatches(subscribers, q, false, o) {
      var j :| 0 <= j < |orders| && orders[j] == o;
    }
    SelectNone(orders, o => OrderMatches(subscribers, q, false, o));
  }

  /** Finding: an order placed half a second before the next midnight is dropped by date_to as written. */
  lemma DateToFinding(o: Order, subscribers: seq<Subscriber>, day: int)
    requires JoinedAddress(subscribers, o).Some?
    requires o.createdAt == (day + 1) * MicrosPerDay - MicrosPerSecond / 2
    ensures var q := OrderQuery([], "all", None, Some(day));
      && o !in OrderIndexAsWritten([o], subscribers, q).value
      && o in OrderIndex([o], subscribers, q)
  {
  }

  // ---------------------------------------------------------------------------
  // index: bottles per subscriber

  /** SUM(new_bottles) + SUM(exchange_bottles) + SUM(free_bottles) of one subscriber; water_only is not counted. */
  function Bottles(orders: seq<Order>, sid: int): int
  {
    var own := OwnedBy(orders, OrderOwner, sid);
    SumOf(own, NewOf) + SumOf(own, ExchangeOf) + SumOf(own, FreeOf)
  }

  /** A new order adds its new, exchanged and free bottles to its subscriber's count, whatever its water_only. */
  lemma BottlesAfterNewOrder(orders: seq<Order>, o: Order, sid: int)
    ensures Bottles(orders + [o], sid)
      == Bottles(orders, sid) + (if o.subscriberId == sid then o.newBottles + o.exchangeBottles + o.freeBottles else 0)
  {
    OwnedByAppend(orders, o, OrderOwner, sid);
    var own := OwnedBy(orders, OrderOwner, sid);
    if o.subscriberId == sid {
      SumOfAppend(own, o, NewOf);
      SumOfAppend(own, o, ExchangeOf);
      SumOfAppend(own, o, FreeOf);
    } else {
      assert own + [] == own;
    }
  }

  /** The subscriber_bottles loop of the order list: one entry per subscriber. */
  method SubscriberBottles(subscribers: seq<Subscriber>, orders: seq<Order>) returns (bottles: map<int, int>)
    ensures bottles.Keys == IdSet(subscribers, SubscriberId)
    ensures forall sid :: sid in bottles ==> bottles[sid] == Bottles(orders, sid)
  {
    bottles := map[];
    for i := 0 to |subscribers|
      invariant bottles.Keys == IdSet(subscribers[..i], SubscriberId)
      invariant forall sid :: sid in bottles ==> bottles[sid] == Bottles(orders, sid)
    {
      var s := subscribers[i];
      var own := OwnedBy(orders, OrderOwner, s.id);
      var totalNew := SumOf(own, NewOf);
      var totalExchange := SumOf(own, ExchangeOf);
      var totalFree := SumOf(own, FreeOf);
      assert subscribers[..i + 1][..i] == subscribers[..i];
      bottles := bottles[s.id := totalNew + totalExchange + totalFree];
    }
    assert subscribers[..|subscribers|] == subscribers;
  }
}
